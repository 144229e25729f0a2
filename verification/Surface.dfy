/** platform/linux/input.c (consume_surface_report): the multi-touch state machine, event by event.

    Fingers are tracked in 64 slots; one slot is active at a time and the events that follow concern
    it.  A report is sent for a slot when it is left, when its finger lifts, or when the
    multi-touch events end.  Coordinates are unbounded integers here. */
module Surface {
  import opened Common

  const CONTACTS := 64

  const EV_ABS := 3
  const SYN_MT_REPORT := 2
  const ABS_MT_SLOT := 0x2f
  const ABS_MT_TOUCH_MAJOR := 0x30
  const ABS_MT_POSITION_X := 0x35
  const ABS_MT_POSITION_Y := 0x36
  const ABS_MT_TRACKING_ID := 0x39
  const ABS_MT_PRESSURE := 0x3a
  const ABS_MT_TOOL_Y := 0x3d

  /** `struct input_event`. */
  datatype Event = Event(kind: int, code: int, value: int)

  /** One entry of each of the contact arrays. */
  datatype Contact = Contact(id: int, x: int, y: int, mag: int)

  /** `struct spr16_msgdata_input_surface`. */
  datatype Report = Report(slot: int, mag: int, x: int, y: int, magmax: int, xmax: int, ymax: int)

  datatype Axis = Axis(minimum: int, maximum: int)

  /** The fixed properties of a device; `magmax` is the magnitude extent the device set-up assigns. */
  datatype Config = Config(
    hasPressure: bool, invertX: bool, invertY: bool, x: Axis, y: Axis, major: Axis, pressure: Axis, magmax: int)

  /** What survives between events: the device's fields, whether a report is due, and the reports sent. */
  datatype Pad = Pad(active: int, contacts: seq<Contact>, xmax: int, ymax: int, magmax: int, pending: bool, out: seq<Report>)

  function NewPad(cfg: Config): Pad {
    Pad(-1, seq(CONTACTS, _ => Contact(-1, 0, 0, 0)), 0, 0, cfg.magmax, false, [])
  }

  predicate IsMt(code: int) {
    ABS_MT_SLOT <= code <= ABS_MT_TOOL_Y
  }

  /** The consumer's loop stops at this event. */
  predicate Ends(e: Event) {
    !IsMt(e.code) && e.code != SYN_MT_REPORT
  }

  /** The active slot is none or a slot, and a report is due only for a slot that has a finger. */
  predicate Valid(p: Pad) {
    && |p.contacts| == CONTACTS && -1 <= p.active < CONTACTS
    && (p.pending ==> p.active >= 0 && p.contacts[p.active].id >= 0)
  }

  /** `active_id`. */
  function ActiveId(p: Pad): int
    requires Valid(p)
  {
    if p.active < 0 then -1 else p.contacts[p.active].id
  }

  /** `clamp_abs`. */
  function Clamp(value: int, axis: Axis, invert: bool): int {
    var v0 := if value < axis.minimum then axis.minimum else value;
    var v1 := (if v0 > axis.maximum then axis.maximum else v0) - axis.minimum;
    if invert then Span(axis) - v1 else v1
  }

  function Span(axis: Axis): int {
    axis.maximum - axis.minimum
  }

  /** The axis the contact width is measured on; C divides towards zero. */
  function WidthAxis(c: Config): Axis {
    Axis(1, 1 + if c.major.maximum >= 0 then c.major.maximum / 3 else -(-c.major.maximum / 3))
  }

  function ReportOf(p: Pad, slot: nat): Report
    requires |p.contacts| == CONTACTS && slot < CONTACTS
  {
    var c := p.contacts[slot];
    Report(slot, c.mag, c.x, c.y, p.magmax, p.xmax, p.ymax)
  }

  /** The report due is sent. */
  function Settle(p: Pad): Pad
    requires Valid(p)
  {
    if p.pending then p.(out := p.out + [ReportOf(p, p.active)], pending := false) else p
  }

  function OnSlot(p: Pad, value: int): Pad
    requires Valid(p)
  {
    var q := Settle(p);
    if value < 0 || value >= CONTACTS then q.(active := -1)
    else
      var c := q.contacts[value];
      q.(active := value, contacts := q.contacts[value := c.(mag := if c.mag == 0 then 1 else c.mag)])
  }

  function OnTrackingId(p: Pad, value: int): Pad
    requires Valid(p)
  {
    var slot := if p.active < 0 then 0 else p.active;
    var c := p.contacts[slot];
    if value < 0 then
      var q := p.(contacts := p.contacts[slot := c.(mag := 0)]);
      q.(active := -1, pending := false, out := q.out + [ReportOf(q, slot)],
         contacts := q.contacts[slot := Contact(-1, c.x, c.y, 0)])
    else
      p.(active := slot, pending := true, contacts := p.contacts[slot := c.(id := value)])
  }

  /** A change to the active contact, which must have a finger. */
  function Change(p: Pad, c: Contact): Pad
    requires Valid(p) && ActiveId(p) >= 0 && c.id == ActiveId(p)
  {
    p.(contacts := p.contacts[p.active := c], pending := true)
  }

  /** One turn of the consumer's loop. */
  function Step(cfg: Config, p: Pad, e: Event): (q: Pad)
    requires Valid(p)
    ensures Valid(q)
  {
    if e.code == ABS_MT_SLOT then OnSlot(p, e.value)
    else if e.code == ABS_MT_TRACKING_ID then OnTrackingId(p, e.value)
    else if ActiveId(p) < 0 then p
    else
      var c := p.contacts[p.active];
      if e.code == ABS_MT_POSITION_X then
        Change(p, c.(x := Clamp(e.value, cfg.x, cfg.invertX))).(xmax := Span(cfg.x))
      else if e.code == ABS_MT_POSITION_Y then
        Change(p, c.(y := Clamp(e.value, cfg.y, cfg.invertY))).(ymax := Span(cfg.y))
      else if e.code == ABS_MT_TOUCH_MAJOR && !cfg.hasPressure then
        Change(p, c.(mag := Clamp(e.value, WidthAxis(cfg), false))).(magmax := Span(WidthAxis(cfg)))
      else if e.code == ABS_MT_PRESSURE && cfg.hasPressure then
        Change(p, c.(mag := Clamp(e.value, cfg.pressure, false))).(magmax := Span(cfg.pressure))
      else p
  }

  function Steps(cfg: Config, p: Pad, es: seq<Event>): (q: Pad)
    requires Valid(p)
    ensures Valid(q)
  {
    if es == [] then p else Step(cfg, Steps(cfg, p, es[..|es| - 1]), es[|es| - 1])
  }

  // ---------------------------------------------------------------------------------------
  // Whole streams

  /** What the event loop sees: events, and the ends of the batches they are read in. */
  datatype Item = Ev(e: Event) | BatchEnd

  /** The one-pass machine: `inside` while multi-touch events are being consumed. */
  datatype Machine = Machine(pad: Pad, inside: bool)

  function Fresh(cfg: Config): Machine {
    Machine(NewPad(cfg), false)
  }

  predicate ValidMachine(m: Machine) {
    Valid(m.pad) && (!m.inside ==> !m.pad.pending)
  }

  /** The consumer begins at an absolute-axis event with a multi-touch code, and ends after any event
      with another code.  A report still due when a batch ends is dropped. */
  function Next(cfg: Config, m: Machine, item: Item): (n: Machine)
    requires ValidMachine(m)
    ensures ValidMachine(n)
  {
    match item
    case BatchEnd => Machine(m.pad.(pending := false), false)
    case Ev(e) =>
      if m.inside then
        if Ends(e) then Machine(Settle(m.pad), false) else Machine(Step(cfg, m.pad, e), true)
      else if e.kind == EV_ABS && IsMt(e.code) then Machine(Step(cfg, m.pad, e), true)
      else m
  }

  function Run(cfg: Config, m: Machine, items: seq<Item>): (n: Machine)
    requires ValidMachine(m)
    ensures ValidMachine(n)
  {
    if items == [] then m else Next(cfg, Run(cfg, m, items[..|items| - 1]), items[|items| - 1])
  }

  /** Batches compose: a stream may be run piece by piece. */
  lemma {:induction false} RunSplit(cfg: Config, m: Machine, a: seq<Item>, b: seq<Item>)
    requires ValidMachine(m)
    ensures Run(cfg, m, a + b) == Run(cfg, Run(cfg, m, a), b)
    decreases |b|
  {
    if b == [] {
      assert a + b == a;
    } else {
      RunSplit(cfg, m, a, b[..|b| - 1]);
      assert (a + b)[..|a + b| - 1] == a + b[..|b| - 1];
    }
  }

  // ---------------------------------------------------------------------------------------
  // Reports stay in range

  predicate ProperAxes(cfg: Config) {
    cfg.x.minimum <= cfg.x.maximum && cfg.y.minimum <= cfg.y.maximum
    && cfg.major.maximum >= 0 && cfg.pressure.minimum <= cfg.pressure.maximum
  }

  /** The extent of the axis that magnitudes are taken from. */
  function MagSpan(cfg: Config): int {
    if cfg.hasPressure then Span(cfg.pressure) else Span(WidthAxis(cfg))
  }

  /** Until a magnitude is measured, only selection sets one, to 1. */
  predicate ContactInRange(cfg: Config, p: Pad, c: Contact) {
    && 0 <= c.x <= p.xmax && 0 <= c.y <= p.ymax
    && 0 <= c.mag <= Max(1, MagSpan(cfg)) && (p.magmax != MagSpan(cfg) ==> c.mag <= 1)
  }

  predicate ReportInRange(r: Report) {
    && 0 <= r.slot < CONTACTS
    && 0 <= r.x <= r.xmax && 0 <= r.y <= r.ymax && 0 <= r.mag <= Max(1, r.magmax)
  }

  predicate InRange(cfg: Config, p: Pad) {
    && p.xmax in {0, Span(cfg.x)} && p.ymax in {0, Span(cfg.y)} && p.magmax in {cfg.magmax, MagSpan(cfg)}
    && (forall i :: 0 <= i < |p.contacts| ==> ContactInRange(cfg, p, p.contacts[i]))
    && (forall i :: 0 <= i < |p.out| ==> ReportInRange(p.out[i]))
  }

  /** Replacing one contact, perhaps with extents that are now known. */
  lemma ChangeInRange(cfg: Config, p: Pad, slot: nat, c: Contact, xmax: int, ymax: int, magmax: int, q: Pad)
    requires ProperAxes(cfg) && |p.contacts| == CONTACTS && InRange(cfg, p) && slot < CONTACTS
    requires xmax == p.xmax || xmax == Span(cfg.x)
    requires ymax == p.ymax || ymax == Span(cfg.y)
    requires magmax == p.magmax || magmax == MagSpan(cfg)
    requires 0 <= c.x <= xmax && 0 <= c.y <= ymax
    requires 0 <= c.mag <= Max(1, MagSpan(cfg)) && (magmax != MagSpan(cfg) ==> c.mag <= 1)
    requires q.contacts == p.contacts[slot := c] && q.out == p.out && q.xmax == xmax && q.ymax == ymax && q.magmax == magmax
    ensures InRange(cfg, q)
  {
  }

  lemma SendInRange(cfg: Config, p: Pad, slot: nat, q: Pad)
    requires ProperAxes(cfg) && |p.contacts| == CONTACTS && InRange(cfg, p) && slot < CONTACTS
    requires q.contacts == p.contacts && q.xmax == p.xmax && q.ymax == p.ymax && q.magmax == p.magmax
    requires q.out == p.out + [ReportOf(p, slot)]
    ensures InRange(cfg, q)
  {
    assert ContactInRange(cfg, p, p.contacts[slot]);
  }

  lemma SettleInRange(cfg: Config, p: Pad)
    requires ProperAxes(cfg) && Valid(p) && InRange(cfg, p)
    ensures InRange(cfg, Settle(p))
  {
    hide InRange;
    if p.pending {
      SendInRange(cfg, p, p.active, Settle(p));
    }
  }

  lemma TrackingInRange(cfg: Config, p: Pad, value: int)
    requires ProperAxes(cfg) && Valid(p) && InRange(cfg, p)
    ensures InRange(cfg, OnTrackingId(p, value))
  {
    var slot := if p.active < 0 then 0 else p.active;
    var c := p.contacts[slot];
    assert ContactInRange(cfg, p, c);
    hide InRange;
    var q := OnTrackingId(p, value);
    if value < 0 {
      var r := p.(contacts := p.contacts[slot := c.(mag := 0)]);
      ChangeInRange(cfg, p, slot, c.(mag := 0), p.xmax, p.ymax, p.magmax, r);
      var t := r.(out := r.out + [ReportOf(r, slot)]);
      SendInRange(cfg, r, slot, t);
      ChangeInRange(cfg, t, slot, Contact(-1, c.x, c.y, 0), p.xmax, p.ymax, p.magmax, q);
    } else {
      ChangeInRange(cfg, p, slot, c.(id := value), p.xmax, p.ymax, p.magmax, q);
    }
  }

  lemma SlotInRange(cfg: Config, p: Pad, value: int)
    requires ProperAxes(cfg) && Valid(p) && InRange(cfg, p)
    ensures InRange(cfg, OnSlot(p, value))
  {
    SettleInRange(cfg, p);
    var t, q := Settle(p), OnSlot(p, value);
    if 0 <= value < CONTACTS {
      assert ContactInRange(cfg, t, t.contacts[value]);
      hide InRange;
      ChangeInRange(cfg, t, value, q.contacts[value], t.xmax, t.ymax, t.magmax, q);
    }
  }

  /** An axis event replaces the active contact, and perhaps one extent. */
  lemma AxisInRange(cfg: Config, p: Pad, e: Event)
    requires ProperAxes(cfg) && Valid(p) && InRange(cfg, p)
    requires e.code != ABS_MT_SLOT && e.code != ABS_MT_TRACKING_ID
    ensures InRange(cfg, Step(cfg, p, e))
  {
    if ActiveId(p) >= 0 {
      var q, c := Step(cfg, p, e), p.contacts[p.active];
      assert ContactInRange(cfg, p, c);
      ClampedInRange(cfg, e.value);
      hide InRange, Clamp, WidthAxis, ProperAxes;
      assert q != p ==> q == p.(contacts := p.contacts[p.active := q.contacts[p.active]], xmax := q.xmax, ymax := q.ymax,
                                magmax := q.magmax, pending := true);
      ChangeInRange(cfg, p, p.active, q.contacts[p.active], q.xmax, q.ymax, q.magmax, q);
    }
  }

  lemma ClampedInRange(cfg: Config, value: int)
    requires ProperAxes(cfg)
    ensures 0 <= Clamp(value, cfg.x, cfg.invertX) <= Span(cfg.x) && 0 <= Clamp(value, cfg.y, cfg.invertY) <= Span(cfg.y)
    ensures 0 <= Clamp(value, WidthAxis(cfg), false) <= Span(WidthAxis(cfg))
    ensures 0 <= Clamp(value, cfg.pressure, false) <= Span(cfg.pressure)
  {
  }

  lemma StepInRange(cfg: Config, p: Pad, e: Event)
    requires ProperAxes(cfg) && Valid(p) && InRange(cfg, p)
    ensures InRange(cfg, Step(cfg, p, e))
  {
    if e.code == ABS_MT_SLOT {
      SlotInRange(cfg, p, e.value);
    } else if e.code == ABS_MT_TRACKING_ID {
      TrackingInRange(cfg, p, e.value);
    } else {
      AxisInRange(cfg, p, e);
    }
  }

  /** Over every stream of events and batches: every report names one of the 64 slots, and its
      coordinates and magnitude lie within the extents it carries (a selected slot counts as magnitude 1
      even where the extent is 0). */
  lemma {:induction false} ReportsInRange(cfg: Config, items: seq<Item>)
    requires ProperAxes(cfg)
    ensures InRange(cfg, Run(cfg, Fresh(cfg), items).pad)
  {
    if items != [] {
      var m, item := Run(cfg, Fresh(cfg), items[..|items| - 1]), items[|items| - 1];
      ReportsInRange(cfg, items[..|items| - 1]);
      if item.Ev? {
        StepInRange(cfg, m.pad, item.e);
      }
    }
  }

  // ---------------------------------------------------------------------------------------
  // One slot at a time

  /** What happens to one slot. */
  datatype Local = Enter | Leave | Track(id: int) | Lift | MoveX(value: int) | MoveY(value: int) | Press(axis: Axis, value: int) | Drop

  /** What a report says about its slot. */
  datatype Shown = Shown(mag: int, x: int, y: int)

  /** One slot on its own: its contact, whether a report is due, and what has been reported. */
  datatype Finger = Finger(contact: Contact, due: bool, shown: seq<Shown>)

  const NewFinger := Finger(Contact(-1, 0, 0, 0), false, [])

  function Show(f: Finger): Finger {
    f.(shown := f.shown + [Shown(f.contact.mag, f.contact.x, f.contact.y)], due := false)
  }

  function OnLocal(cfg: Config, f: Finger, l: Local): Finger {
    match l
    case Enter => f.(contact := f.contact.(mag := if f.contact.mag == 0 then 1 else f.contact.mag))
    case Leave => if f.due then Show(f) else f
    case Track(id) => f.(contact := f.contact.(id := id), due := true)
    case Lift => var g := Show(f.(contact := f.contact.(mag := 0))); g.(contact := g.contact.(id := -1))
    case MoveX(v) => if f.contact.id < 0 then f else f.(contact := f.contact.(x := Clamp(v, cfg.x, cfg.invertX)), due := true)
    case MoveY(v) => if f.contact.id < 0 then f else f.(contact := f.contact.(y := Clamp(v, cfg.y, cfg.invertY)), due := true)
    case Press(axis, v) => if f.contact.id < 0 then f else f.(contact := f.contact.(mag := Clamp(v, axis, false)), due := true)
    case Drop => f.(due := false)
  }

  function OnLocals(cfg: Config, f: Finger, ls: seq<Local>): Finger {
    if ls == [] then f else OnLocal(cfg, OnLocals(cfg, f, ls[..|ls| - 1]), ls[|ls| - 1])
  }

  /** Which slot is being talked about; it depends on slot numbers and tracking identifiers only. */
  datatype Route = Route(active: int, inside: bool)

  /** The event belongs to a multi-touch run. */
  predicate Consumed(r: Route, e: Event) {
    if r.inside then !Ends(e) else e.kind == EV_ABS && IsMt(e.code)
  }

  /** In numbers: a run begins with an absolute-axis event whose code is in the multi-touch range, and goes on
      through every code of that range and the protocol's own separator, of whatever type. */
  lemma ConsumedIff(r: Route, e: Event)
    ensures Consumed(r, e)
            <==> if r.inside then 0x2f <= e.code <= 0x3d || e.code == 2 else e.kind == 3 && 0x2f <= e.code <= 0x3d
  {
  }

  function NextRoute(r: Route, item: Item): Route {
    match item
    case BatchEnd => Route(r.active, false)
    case Ev(e) =>
      if !Consumed(r, e) then Route(r.active, false)
      else if e.code == ABS_MT_SLOT then Route(if 0 <= e.value < CONTACTS then e.value else -1, true)
      else if e.code == ABS_MT_TRACKING_ID then
        Route(if e.value < 0 then -1 else if r.active < 0 then 0 else r.active, true)
      else Route(r.active, true)
  }

  function RouteOf(items: seq<Item>): Route {
    if items == [] then Route(-1, false) else NextRoute(RouteOf(items[..|items| - 1]), items[|items| - 1])
  }

  /** What one item means for slot `s`. */
  function Locals(cfg: Config, r: Route, item: Item, s: nat): seq<Local> {
    match item
    case BatchEnd => [Drop]
    case Ev(e) =>
      if !Consumed(r, e) then (if r.inside && r.active == s then [Leave] else [])
      else if e.code == ABS_MT_SLOT then
        (if r.active == s then [Leave] else []) + (if e.value == s then [Enter] else [])
      else if e.code == ABS_MT_TRACKING_ID then
        (if (if r.active < 0 then 0 else r.active) == s then [if e.value < 0 then Lift else Track(e.value)] else [])
      else if r.active != s then []
      else if e.code == ABS_MT_POSITION_X then [MoveX(e.value)]
      else if e.code == ABS_MT_POSITION_Y then [MoveY(e.value)]
      else if e.code == ABS_MT_TOUCH_MAJOR && !cfg.hasPressure then [Press(WidthAxis(cfg), e.value)]
      else if e.code == ABS_MT_PRESSURE && cfg.hasPressure then [Press(cfg.pressure, e.value)]
      else []
  }

  /** Slot `s` on its own, over a whole stream. */
  function FingerOf(cfg: Config, items: seq<Item>, s: nat): Finger {
    if items == [] then NewFinger
    else
      var rest := items[..|items| - 1];
      OnLocals(cfg, FingerOf(cfg, rest, s), Locals(cfg, RouteOf(rest), items[|items| - 1], s))
  }

  function ShownFor(out: seq<Report>, s: nat): seq<Shown> {
    if out == [] then []
    else
      var r := out[|out| - 1];
      ShownFor(out[..|out| - 1], s) + if r.slot == s then [Shown(r.mag, r.x, r.y)] else []
  }

  lemma ShownNext(out: seq<Report>, r: Report, s: nat)
    ensures ShownFor(out + [r], s) == ShownFor(out, s) + if r.slot == s then [Shown(r.mag, r.x, r.y)] else []
  {
    assert (out + [r])[..|out|] == out;
  }

  /** The whole machine, seen at slot `s`. */
  predicate Agrees(m: Machine, s: nat, f: Finger)
    requires Valid(m.pad) && s < CONTACTS
  {
    && m.pad.contacts[s] == f.contact
    && (m.pad.pending && m.pad.active == s <==> f.due)
    && ShownFor(m.pad.out, s) == f.shown
  }

  lemma OnLocalsSmall(cfg: Config, f: Finger, a: seq<Local>, b: seq<Local>)
    requires |a| <= 1 && |b| <= 1
    ensures OnLocals(cfg, f, a) == if a == [] then f else OnLocal(cfg, f, a[0])
    ensures OnLocals(cfg, f, a + b) == OnLocals(cfg, OnLocals(cfg, f, a), b)
  {
    if a != [] {
      assert a[..0] == [];
    }
    if b != [] {
      assert (a + b)[..|a|] == a;
      assert b[..0] == [];
    } else {
      assert a + b == a;
    }
  }

  lemma SettleAgrees(cfg: Config, m: Machine, s: nat, f: Finger)
    requires Valid(m.pad) && s < CONTACTS && Agrees(m, s, f)
    ensures Agrees(m.(pad := Settle(m.pad)), s, if m.pad.active == s then OnLocal(cfg, f, Leave) else f)
  {
    if m.pad.pending {
      ShownNext(m.pad.out, ReportOf(m.pad, m.pad.active), s);
    }
  }

  lemma SlotAgrees(cfg: Config, m: Machine, value: int, s: nat, f: Finger)
    requires Valid(m.pad) && s < CONTACTS && Agrees(m, s, f)
    ensures var left := if m.pad.active == s then OnLocal(cfg, f, Leave) else f;
            Agrees(m.(pad := OnSlot(m.pad, value)), s, if value == s then OnLocal(cfg, left, Enter) else left)
  {
    SettleAgrees(cfg, m, s, f);
  }

  lemma TrackingAgrees(cfg: Config, m: Machine, value: int, s: nat, f: Finger)
    requires Valid(m.pad) && s < CONTACTS && Agrees(m, s, f)
    ensures var slot := if m.pad.active < 0 then 0 else m.pad.active;
            var l := if value < 0 then Lift else Track(value);
            Agrees(m.(pad := OnTrackingId(m.pad, value)), s, if slot == s then OnLocal(cfg, f, l) else f)
  {
    var slot := if m.pad.active < 0 then 0 else m.pad.active;
    if value < 0 {
      var q := m.pad.(contacts := m.pad.contacts[slot := m.pad.contacts[slot].(mag := 0)]);
      ShownNext(m.pad.out, ReportOf(q, slot), s);
    }
  }

  lemma SlotStepAgrees(cfg: Config, m: Machine, e: Event, s: nat, f: Finger)
    requires ValidMachine(m) && s < CONTACTS && Agrees(m, s, f)
    requires Consumed(Route(m.pad.active, m.inside), e) && e.code == ABS_MT_SLOT
    ensures Agrees(Machine(Step(cfg, m.pad, e), true), s,
                   OnLocals(cfg, f, Locals(cfg, Route(m.pad.active, m.inside), Ev(e), s)))
  {
    SlotAgrees(cfg, m, e.value, s, f);
    hide Agrees, OnLocals, OnLocal, OnSlot;
    var active := m.pad.active;
    var leave, enter := if active == s then [Leave] else [], if e.value == s then [Enter] else [];
    var left := if active == s then OnLocal(cfg, f, Leave) else f;
    OnLocalsSmall(cfg, f, leave, enter);
    OnLocalsSmall(cfg, left, enter, []);
    AgreesInside(m.(pad := OnSlot(m.pad, e.value)), s, if e.value == s then OnLocal(cfg, left, Enter) else left);
  }

  lemma AgreesInside(m: Machine, s: nat, f: Finger)
    requires Valid(m.pad) && s < CONTACTS && Agrees(m, s, f)
    ensures Agrees(Machine(m.pad, true), s, f)
  {
  }

  /** One consumed event. */
  lemma StepAgrees(cfg: Config, m: Machine, e: Event, s: nat, f: Finger)
    requires ValidMachine(m) && s < CONTACTS && Agrees(m, s, f)
    requires Consumed(Route(m.pad.active, m.inside), e)
    ensures Agrees(Machine(Step(cfg, m.pad, e), true), s,
                   OnLocals(cfg, f, Locals(cfg, Route(m.pad.active, m.inside), Ev(e), s)))
  {
    hide Agrees, OnLocals;
    if e.code == ABS_MT_SLOT {
      SlotStepAgrees(cfg, m, e, s, f);
    } else if e.code == ABS_MT_TRACKING_ID {
      TrackingStepAgrees(cfg, m, e, s, f);
    } else {
      AxisStepAgrees(cfg, m, e, s, f);
    }
  }

  lemma TrackingStepAgrees(cfg: Config, m: Machine, e: Event, s: nat, f: Finger)
    requires ValidMachine(m) && s < CONTACTS && Agrees(m, s, f)
    requires Consumed(Route(m.pad.active, m.inside), e) && e.code == ABS_MT_TRACKING_ID
    ensures Agrees(Machine(Step(cfg, m.pad, e), true), s,
                   OnLocals(cfg, f, Locals(cfg, Route(m.pad.active, m.inside), Ev(e), s)))
  {
    OnLocalsSmall(cfg, f, Locals(cfg, Route(m.pad.active, m.inside), Ev(e), s), []);
    TrackingAgrees(cfg, m, e.value, s, f);
  }

  lemma AxisStepAgrees(cfg: Config, m: Machine, e: Event, s: nat, f: Finger)
    requires ValidMachine(m) && s < CONTACTS && Agrees(m, s, f)
    requires Consumed(Route(m.pad.active, m.inside), e) && e.code != ABS_MT_SLOT && e.code != ABS_MT_TRACKING_ID
    ensures Agrees(Machine(Step(cfg, m.pad, e), true), s,
                   OnLocals(cfg, f, Locals(cfg, Route(m.pad.active, m.inside), Ev(e), s)))
  {
    hide Clamp;
    OnLocalsSmall(cfg, f, Locals(cfg, Route(m.pad.active, m.inside), Ev(e), s), []);
  }

  lemma NextAgrees(cfg: Config, m: Machine, item: Item, s: nat, f: Finger)
    requires ValidMachine(m) && s < CONTACTS && Agrees(m, s, f)
    ensures var r, n := Route(m.pad.active, m.inside), Next(cfg, m, item);
            && Agrees(n, s, OnLocals(cfg, f, Locals(cfg, r, item, s)))
            && Route(n.pad.active, n.inside) == NextRoute(r, item)
  {
    var r := Route(m.pad.active, m.inside);
    OnLocalsSmall(cfg, f, [Leave], []);
    OnLocalsSmall(cfg, f, [Drop], []);
    OnLocalsSmall(cfg, f, [], []);
    if item.Ev? {
      if Consumed(r, item.e) {
        StepAgrees(cfg, m, item.e, s, f);
      } else if m.inside {
        SettleAgrees(cfg, m, s, f);
      }
    }
  }

  /** Slots do not interfere: over every stream, the contact kept for slot `s` and the reports sent
      for it are those of a machine with that one slot, fed with what was addressed to it. */
  lemma {:induction false} SlotsAreIndependent(cfg: Config, items: seq<Item>, s: nat)
    requires s < CONTACTS
    ensures var m, f := Run(cfg, Fresh(cfg), items), FingerOf(cfg, items, s);
            && m.pad.contacts[s] == f.contact
            && ShownFor(m.pad.out, s) == f.shown
            && Agrees(m, s, f)
            && Route(m.pad.active, m.inside) == RouteOf(items)
  {
    if items != [] {
      var rest := items[..|items| - 1];
      SlotsAreIndependent(cfg, rest, s);
      NextAgrees(cfg, Run(cfg, Fresh(cfg), rest), items[|items| - 1], s, FingerOf(cfg, rest, s));
    }
  }

  // ---------------------------------------------------------------------------------------
  // Nothing stays unreported

  /** What was last reported is what is known, up to the magnitude a slot gets by being selected again. */
  predicate UpToDate(c: Contact, shown: seq<Shown>) {
    if shown == [] then c.id < 0 && c.x == 0 && c.y == 0
    else
      var last := shown[|shown| - 1];
      last.x == c.x && last.y == c.y && (last.mag == c.mag || (last.mag == 0 && c.mag == 1))
  }

  predicate Settled(f: Finger) {
    !f.due ==> UpToDate(f.contact, f.shown)
  }

  lemma LocalSettled(cfg: Config, f: Finger, l: Local)
    requires Settled(f) && (l == Drop ==> !f.due)
    ensures Settled(OnLocal(cfg, f, l))
  {
  }

  lemma LocalsSettled(cfg: Config, f: Finger, ls: seq<Local>)
    requires |ls| <= 2 && Settled(f) && (Drop in ls ==> !f.due && ls == [Drop])
    ensures Settled(OnLocals(cfg, f, ls))
  {
    hide Settled, OnLocal, OnLocals;
    if |ls| == 2 {
      OnLocalsSmall(cfg, f, [ls[0]], [ls[1]]);
      assert ls == [ls[0]] + [ls[1]];
      var g := OnLocal(cfg, f, ls[0]);
      OnLocalsSmall(cfg, g, [ls[1]], []);
      assert [ls[1]] + [] == [ls[1]];
      LocalSettled(cfg, f, ls[0]);
      LocalSettled(cfg, g, ls[1]);
    } else {
      OnLocalsSmall(cfg, f, ls, []);
      assert ls + [] == ls;
      if ls != [] {
        LocalSettled(cfg, f, ls[0]);
      }
    }
  }

  /** The slot a tracking identifier is for. */
  function Aimed(r: Route): int {
    if r.active < 0 then 0 else r.active
  }

  /** The tracking identifier the events give to slot `s`, negative when it has no finger. */
  function IdOf(items: seq<Item>, s: int): int {
    if items == [] then -1
    else
      var rest, item := items[..|items| - 1], items[|items| - 1];
      var r := RouteOf(rest);
      if item.Ev? && Consumed(r, item.e) && item.e.code == ABS_MT_TRACKING_ID && Aimed(r) == s
      then (if item.e.value < 0 then -1 else item.e.value)
      else IdOf(rest, s)
  }

  /** Item `j` says something new about a finger. */
  predicate Raises(cfg: Config, items: seq<Item>, j: nat)
    requires j < |items|
  {
    var r := RouteOf(items[..j]);
    items[j].Ev? && Consumed(r, items[j].e) &&
    var e := items[j].e;
    || (e.code == ABS_MT_TRACKING_ID && e.value >= 0)
    || (r.active >= 0 && IdOf(items[..j], r.active) >= 0
        && (|| e.code == ABS_MT_POSITION_X || e.code == ABS_MT_POSITION_Y
            || (e.code == ABS_MT_TOUCH_MAJOR && !cfg.hasPressure)
            || (e.code == ABS_MT_PRESSURE && cfg.hasPressure)))
  }

  /** With item `j` whatever was due is sent or dropped: a slot is selected, a finger lifts, or the
      multi-touch run or the batch ends. */
  predicate Closes(items: seq<Item>, j: nat)
    requires j < |items|
  {
    match items[j]
    case BatchEnd => true
    case Ev(e) =>
      || !Consumed(RouteOf(items[..j]), e)
      || e.code == ABS_MT_SLOT
      || (e.code == ABS_MT_TRACKING_ID && e.value < 0)
  }

  /** Read off the events alone: after `items`, news about a finger has not been closed. */
  ghost predicate Due(cfg: Config, items: seq<Item>) {
    exists j :: 0 <= j < |items| && Raises(cfg, items, j) && forall k :: j < k < |items| ==> !Closes(items, k)
  }

  lemma {:induction false} IdsFollow(cfg: Config, items: seq<Item>, s: nat)
    requires s < CONTACTS
    ensures var id := Run(cfg, Fresh(cfg), items).pad.contacts[s].id;
            id == IdOf(items, s) || (id < 0 && IdOf(items, s) < 0)
  {
    if items != [] {
      var rest := items[..|items| - 1];
      IdsFollow(cfg, rest, s);
      SlotsAreIndependent(cfg, rest, s);
      IdStep(cfg, Run(cfg, Fresh(cfg), rest), items[|items| - 1], s);
    }
  }

  lemma IdStep(cfg: Config, m: Machine, item: Item, s: nat)
    requires ValidMachine(m) && s < CONTACTS
    ensures var r, n := Route(m.pad.active, m.inside), Next(cfg, m, item);
            n.pad.contacts[s].id ==
            if item.Ev? && Consumed(r, item.e) && item.e.code == ABS_MT_TRACKING_ID && Aimed(r) == s
            then (if item.e.value < 0 then -1 else item.e.value)
            else m.pad.contacts[s].id
  {
    hide Clamp, Span;
  }

  /** One item, for the flag of the machine. */
  lemma DueStep(cfg: Config, m: Machine, items: seq<Item>)
    requires ValidMachine(m) && items != []
    requires var j := |items| - 1;
             && Route(m.pad.active, m.inside) == RouteOf(items[..j])
             && (m.pad.active >= 0 ==> (ActiveId(m.pad) >= 0 <==> IdOf(items[..j], m.pad.active) >= 0))
    ensures var j := |items| - 1;
            Next(cfg, m, items[j]).pad.pending <==> Raises(cfg, items, j) || (m.pad.pending && !Closes(items, j))
  {
    hide Clamp, Span, RouteOf, IdOf;
  }

  lemma SamePrefix(cfg: Config, items: seq<Item>, j: nat)
    requires j < |items| - 1
    ensures Raises(cfg, items[..|items| - 1], j) == Raises(cfg, items, j)
    ensures Closes(items[..|items| - 1], j) == Closes(items, j)
  {
    assert items[..|items| - 1][..j] == items[..j];
  }

  lemma DueNext(cfg: Config, items: seq<Item>)
    requires items != []
    ensures var j := |items| - 1;
            Due(cfg, items) <==> Raises(cfg, items, j) || (Due(cfg, items[..j]) && !Closes(items, j))
  {
    hide Raises, Closes;
    var last := |items| - 1;
    var rest := items[..last];
    forall j: nat | j < last
      ensures Raises(cfg, rest, j) == Raises(cfg, items, j) && Closes(rest, j) == Closes(items, j)
    {
      SamePrefix(cfg, items, j);
    }
    if Due(cfg, rest) && !Closes(items, last) {
      var j :| 0 <= j < |rest| && Raises(cfg, rest, j) && forall k :: j < k < |rest| ==> !Closes(rest, k);
      assert Raises(cfg, items, j);
      assert forall k :: j < k < |items| ==> !Closes(items, k);
    }
    if Due(cfg, items) && !Raises(cfg, items, last) {
      var j :| 0 <= j < |items| && Raises(cfg, items, j) && forall k :: j < k < |items| ==> !Closes(items, k);
      assert Raises(cfg, rest, j);
    }
  }

  /** The flag of the machine is what the events say. */
  lemma {:induction false} DueIsPending(cfg: Config, items: seq<Item>)
    ensures Run(cfg, Fresh(cfg), items).pad.pending <==> Due(cfg, items)
  {
    hide Raises, Closes, IdOf, RouteOf, Next;
    if items == [] {
      NotDue(cfg);
    } else {
      hide Due;
      var rest := items[..|items| - 1];
      var m := Run(cfg, Fresh(cfg), rest);
      DueIsPending(cfg, rest);
      SlotsAreIndependent(cfg, rest, 0);
      if m.pad.active >= 0 {
        IdsFollow(cfg, rest, m.pad.active);
      }
      DueStep(cfg, m, items);
      DueNext(cfg, items);
    }
  }

  lemma NotDue(cfg: Config)
    ensures !Run(cfg, Fresh(cfg), []).pad.pending && !Due(cfg, [])
  {
  }

  /** No batch ends with a report due. */
  ghost predicate NothingDropped(cfg: Config, items: seq<Item>) {
    forall i :: 0 <= i < |items| && items[i] == BatchEnd ==> !Due(cfg, items[..i])
  }

  lemma NothingDroppedBefore(cfg: Config, items: seq<Item>)
    requires items != [] && NothingDropped(cfg, items)
    ensures NothingDropped(cfg, items[..|items| - 1])
    ensures items[|items| - 1] == BatchEnd ==> !Due(cfg, items[..|items| - 1])
  {
    var rest := items[..|items| - 1];
    forall i | 0 <= i < |rest| && rest[i] == BatchEnd
      ensures !Due(cfg, rest[..i])
    {
      assert items[i] == BatchEnd && items[..i] == rest[..i];
    }
  }

  lemma LocalsShape(cfg: Config, r: Route, item: Item, s: nat)
    ensures var ls := Locals(cfg, r, item, s); |ls| <= 2 && (Drop in ls ==> item == BatchEnd && ls == [Drop])
  {
  }

  lemma {:induction false} FingerSettled(cfg: Config, items: seq<Item>, s: nat)
    requires s < CONTACTS && NothingDropped(cfg, items)
    ensures Settled(FingerOf(cfg, items, s))
  {
    if items != [] {
      var rest, item := items[..|items| - 1], items[|items| - 1];
      NothingDroppedBefore(cfg, items);
      FingerSettled(cfg, rest, s);
      SlotsAreIndependent(cfg, rest, s);
      var f := FingerOf(cfg, rest, s);
      DueIsPending(cfg, rest);
      assert item == BatchEnd ==> !f.due;
      LocalsShape(cfg, RouteOf(rest), item, s);
      LocalsSettled(cfg, f, Locals(cfg, RouteOf(rest), item, s));
    }
  }

  /** Over every stream in which no batch ends with a report due, once the multi-touch events are over
      the last report sent for each slot gives the contact's current position and size. */
  lemma NothingStale(cfg: Config, items: seq<Item>, s: nat)
    requires s < CONTACTS && NothingDropped(cfg, items)
    ensures var m := Run(cfg, Fresh(cfg), items);
            !m.inside ==> UpToDate(m.pad.contacts[s], ShownFor(m.pad.out, s))
  {
    SlotsAreIndependent(cfg, items, s);
    FingerSettled(cfg, items, s);
  }

  // ---------------------------------------------------------------------------------------
  // What a batch end loses

  /** A consumer that also sends the report due when a batch ends. */
  function NextKeeping(cfg: Config, m: Machine, item: Item): (n: Machine)
    requires ValidMachine(m)
    ensures ValidMachine(n)
  {
    if item == BatchEnd then Machine(Settle(m.pad), false) else Next(cfg, m, item)
  }

  function RunKeeping(cfg: Config, m: Machine, items: seq<Item>): (n: Machine)
    requires ValidMachine(m)
    ensures ValidMachine(n)
  {
    if items == [] then m else NextKeeping(cfg, RunKeeping(cfg, m, items[..|items| - 1]), items[|items| - 1])
  }

  /** The batch ends with a report due. */
  ghost function Losses(cfg: Config, items: seq<Item>): nat {
    if items == [] then 0
    else
      var rest := items[..|items| - 1];
      Losses(cfg, rest) + if items[|items| - 1] == BatchEnd && Due(cfg, rest) then 1 else 0
  }

  /** The two machines differ in what they have sent, and in nothing else. */
  predicate SameButSent(p: Pad, q: Pad) {
    q == p.(out := q.out)
  }

  lemma SettleSameButSent(p: Pad, q: Pad)
    requires Valid(p) && Valid(q) && SameButSent(p, q)
    ensures SameButSent(Settle(p), Settle(q)) && |Settle(q).out| - |q.out| == |Settle(p).out| - |p.out|
    ensures p == q ==> Settle(p) == Settle(q)
  {
  }

  lemma StepSameButSent(cfg: Config, p: Pad, q: Pad, e: Event)
    requires Valid(p) && Valid(q) && SameButSent(p, q)
    ensures SameButSent(Step(cfg, p, e), Step(cfg, q, e))
    ensures |Step(cfg, q, e).out| - |q.out| == |Step(cfg, p, e).out| - |p.out|
    ensures p == q ==> Step(cfg, p, e) == Step(cfg, q, e)
  {
    hide OnSlot, OnTrackingId, Settle, Clamp, Span;
    SlotSameButSent(p, q, e.value);
    TrackingSameButSent(p, q, e.value);
  }

  lemma SlotSameButSent(p: Pad, q: Pad, value: int)
    requires Valid(p) && Valid(q) && SameButSent(p, q)
    ensures SameButSent(OnSlot(p, value), OnSlot(q, value))
    ensures |OnSlot(q, value).out| - |q.out| == |OnSlot(p, value).out| - |p.out|
  {
    SettleSameButSent(p, q);
    hide Settle;
  }

  lemma TrackingSameButSent(p: Pad, q: Pad, value: int)
    requires Valid(p) && Valid(q) && SameButSent(p, q)
    ensures SameButSent(OnTrackingId(p, value), OnTrackingId(q, value))
    ensures |OnTrackingId(q, value).out| - |q.out| == |OnTrackingId(p, value).out| - |p.out|
  {
  }

  /** Every batch end with a report due loses exactly that report, and nothing else is lost. */
  lemma {:induction false} LossesAreCounted(cfg: Config, items: seq<Item>)
    ensures var m, k := Run(cfg, Fresh(cfg), items), RunKeeping(cfg, Fresh(cfg), items);
            && m.inside == k.inside && SameButSent(m.pad, k.pad)
            && |k.pad.out| == |m.pad.out| + Losses(cfg, items)
            && (Losses(cfg, items) == 0 ==> k == m)
  {
    if items != [] {
      var rest, item := items[..|items| - 1], items[|items| - 1];
      LossesAreCounted(cfg, rest);
      DueIsPending(cfg, rest);
      hide Due;
      if item.Ev? {
        StepSameButSent(cfg, Run(cfg, Fresh(cfg), rest).pad, RunKeeping(cfg, Fresh(cfg), rest).pad, item.e);
        SettleSameButSent(Run(cfg, Fresh(cfg), rest).pad, RunKeeping(cfg, Fresh(cfg), rest).pad);
      }
    }
  }

  lemma {:induction false} NoLossIff(cfg: Config, items: seq<Item>)
    ensures NothingDropped(cfg, items) <==> Losses(cfg, items) == 0
  {
    if items != [] {
      var rest := items[..|items| - 1];
      NoLossIff(cfg, rest);
      if NothingDropped(cfg, items) {
        NothingDroppedBefore(cfg, items);
      } else {
        var i :| 0 <= i < |items| && items[i] == BatchEnd && Due(cfg, items[..i]);
        assert i < |rest| ==> rest[i] == BatchEnd && rest[..i] == items[..i];
      }
    }
  }

  /** The exact condition, on the events alone: the client is sent every report if and only if no batch
      ends with one due. */
  lemma NothingIsLostIff(cfg: Config, items: seq<Item>)
    ensures Run(cfg, Fresh(cfg), items).pad.out == RunKeeping(cfg, Fresh(cfg), items).pad.out
            <==> NothingDropped(cfg, items)
  {
    LossesAreCounted(cfg, items);
    NoLossIff(cfg, items);
  }

  /** A simple case: when every batch ends outside a multi-touch run, as after a
      SYN_REPORT, no report is lost. */
  lemma BatchesThatEndOutside(cfg: Config, items: seq<Item>)
    requires forall i :: 0 <= i < |items| && items[i] == BatchEnd ==> !RouteOf(items[..i]).inside
    ensures NothingDropped(cfg, items)
  {
    forall i | 0 <= i < |items| && items[i] == BatchEnd
      ensures !Due(cfg, items[..i])
    {
      SlotsAreIndependent(cfg, items[..i], 0);
      DueIsPending(cfg, items[..i]);
    }
  }

  /** The exception is real: a batch that ends before any other event loses the finger's position. */
  lemma BatchEndDropsReport(cfg: Config, items: seq<Item>)
    requires cfg.x == Axis(0, 100) && !cfg.invertX
    requires items == [Ev(Event(EV_ABS, ABS_MT_TRACKING_ID, 7)), Ev(Event(EV_ABS, ABS_MT_POSITION_X, 50)), BatchEnd]
    ensures var m := Run(cfg, Fresh(cfg), items);
            && m.pad.contacts[0].x == 50 && m.pad.out == [] && !NothingDropped(cfg, items)
  {
    hide Run, Steps, FingerOf, Next;
    RunNext(cfg, [], items[0]);
    RunNext(cfg, [items[0]], items[1]);
    RunNext(cfg, [items[0], items[1]], items[2]);
    assert [] + [items[0]] == [items[0]] && [items[0]] + [items[1]] == [items[0], items[1]];
    assert [items[0], items[1]] + [items[2]] == items && items[..2] == [items[0], items[1]];
    RunNone(cfg);
    TwoEvents(cfg, items[0], items[1]);
    DueIsPending(cfg, items[..2]);
    assert items[2] == BatchEnd && Due(cfg, items[..2]);
  }

  lemma RunNone(cfg: Config)
    ensures Run(cfg, Fresh(cfg), []) == Fresh(cfg)
  {
  }

  lemma TwoEvents(cfg: Config, a: Item, b: Item)
    requires cfg.x == Axis(0, 100) && !cfg.invertX
    requires a == Ev(Event(EV_ABS, ABS_MT_TRACKING_ID, 7)) && b == Ev(Event(EV_ABS, ABS_MT_POSITION_X, 50))
    ensures var m := Next(cfg, Next(cfg, Fresh(cfg), a), b);
            && m.pad.pending && m.pad.contacts[0].x == 50 && m.pad.out == []
            && Next(cfg, m, BatchEnd) == Machine(m.pad.(pending := false), false)
  {
    hide Run, Steps;
    var p := OnTrackingId(NewPad(cfg), 7);
    assert p.active == 0 && p.contacts[0].id == 7 && p.pending;
  }

  lemma RunNext(cfg: Config, items: seq<Item>, item: Item)
    ensures Run(cfg, Fresh(cfg), items + [item]) == Next(cfg, Run(cfg, Fresh(cfg), items), item)
  {
    assert (items + [item])[..|items|] == items;
  }
}
