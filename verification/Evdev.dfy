/** platform/linux/input.c: one multi-touch device in memory, the consumer of its events
    (consume_surface_report), and the event loop that calls it (transceive_evdev). */
module Evdev {
  import opened Common
  import opened Surface

  /** The contact fields of `struct drv_evdev_pvt`; `sent` is what has been written to the client. */
  class Touchpad {
    const cfg: Config
    const ids: array<int>
    const xs: array<int>
    const ys: array<int>
    const mags: array<int>
    var active: int
    var xmax: int
    var ymax: int
    var magmax: int
    var sent: seq<Report>
    ghost var contacts: seq<Contact>

    /** calloc, and what the device set-up assigns. */
    constructor (cfg: Config)
      ensures this.cfg == cfg && Shaped() && fresh(ids) && fresh(xs) && fresh(ys) && fresh(mags)
      ensures View() == NewPad(cfg)
    {
      this.cfg := cfg;
      ids := new int[CONTACTS](_ => -1);
      xs := new int[CONTACTS](_ => 0);
      ys := new int[CONTACTS](_ => 0);
      mags := new int[CONTACTS](_ => 0);
      active, xmax, ymax, magmax, sent := -1, 0, 0, cfg.magmax, [];
      contacts := seq(CONTACTS, _ => Contact(-1, 0, 0, 0));
    }

    ghost predicate Shaped()
      reads this`contacts, ids, xs, ys, mags
    {
      && ids.Length == xs.Length == ys.Length == mags.Length == CONTACTS == |contacts|
      && ids != xs && ids != ys && ids != mags && xs != ys && xs != mags && ys != mags
      && forall i :: 0 <= i < CONTACTS ==> contacts[i] == Contact(ids[i], xs[i], ys[i], mags[i])
    }

    /** The device with the consumer's local variables. */
    ghost function At(active: int, due: bool): Pad
      reads this`contacts, this`xmax, this`ymax, this`magmax, this`sent
    {
      Pad(active, contacts, xmax, ymax, magmax, due, sent)
    }

    ghost function View(): Pad
      reads this`active, this`contacts, this`xmax, this`ymax, this`magmax, this`sent
    {
      At(active, false)
    }

    /** `spr16_write_msg` of the active contact. */
    method Send(active: int)
      requires Shaped() && 0 <= active < CONTACTS
      modifies this`sent
      ensures sent == old(sent) + [ReportOf(old(At(active, true)), active)]
    {
      sent := sent + [Report(active, mags[active], xs[active], ys[active], magmax, xmax, ymax)];
    }

    method SetId(slot: int, id: int) returns (r: int)
      requires Shaped()
      modifies ids, this`contacts
      ensures Shaped()
      ensures if 0 <= slot < CONTACTS then r == id && contacts == old(contacts)[slot := old(contacts)[slot].(id := id)]
              else r == -1 && contacts == old(contacts)
    {
      if slot < 0 || slot >= CONTACTS {
        return -1;
      }
      ids[slot] := id;
      contacts := contacts[slot := contacts[slot].(id := id)];
      r := id;
    }

    method GetId(slot: int) returns (r: int)
      requires Shaped()
      ensures r == if 0 <= slot < CONTACTS then contacts[slot].id else -1
    {
      if slot < 0 || slot >= CONTACTS {
        return -1;
      }
      r := ids[slot];
    }

    method SetX(slot: nat, x: int)
      requires Shaped() && slot < CONTACTS
      modifies xs, this`contacts
      ensures Shaped() && contacts == old(contacts)[slot := old(contacts)[slot].(x := x)]
    {
      xs[slot] := x;
      contacts := contacts[slot := contacts[slot].(x := x)];
    }

    method SetY(slot: nat, y: int)
      requires Shaped() && slot < CONTACTS
      modifies ys, this`contacts
      ensures Shaped() && contacts == old(contacts)[slot := old(contacts)[slot].(y := y)]
    {
      ys[slot] := y;
      contacts := contacts[slot := contacts[slot].(y := y)];
    }

    method SetMag(slot: nat, mag: int)
      requires Shaped() && slot < CONTACTS
      modifies mags, this`contacts
      ensures Shaped() && contacts == old(contacts)[slot := old(contacts)[slot].(mag := mag)]
    {
      mags[slot] := mag;
      contacts := contacts[slot := contacts[slot].(mag := mag)];
    }

    /** ABS_MT_SLOT. */
    method SlotEvent(active: int, due: bool, value: int) returns (newActive: int, id: int)
      requires Shaped() && Surface.Valid(At(active, due))
      modifies this`sent, this`contacts, mags
      ensures Shaped() && At(newActive, false) == OnSlot(old(At(active, due)), value)
      ensures Surface.Valid(At(newActive, false)) && id == ActiveId(At(newActive, false))
    {
      if due {
        Send(active);
      }
      if value < 0 || value >= CONTACTS {
        return -1, -1;
      }
      newActive := value;
      id := GetId(newActive);
      if mags[newActive] == 0 {
        SetMag(newActive, 1);
      }
    }

    /** ABS_MT_TRACKING_ID. */
    method TrackingEvent(active: int, due: bool, value: int) returns (newActive: int, id: int, newDue: bool)
      requires Shaped() && Surface.Valid(At(active, due))
      modifies this`sent, this`contacts, mags, ids
      ensures Shaped() && At(newActive, newDue) == OnTrackingId(old(At(active, due)), value)
      ensures Surface.Valid(At(newActive, newDue)) && id == ActiveId(At(newActive, newDue))
    {
      var slot := active;
      if slot < 0 {
        slot := 0;
      }
      if value < 0 {
        SetMag(slot, 0);
        Send(slot);
        id := SetId(slot, -1);
        return -1, id, false;
      }
      id := SetId(slot, value);
      return slot, id, true;
    }

    /** The axis events, for an active contact that has a finger. */
    method AxisEvent(active: int, due: bool, e: Event) returns (newDue: bool)
      requires Shaped() && Surface.Valid(At(active, due)) && ActiveId(At(active, due)) >= 0
      requires e.code != ABS_MT_SLOT && e.code != ABS_MT_TRACKING_ID
      modifies this`contacts, this`xmax, this`ymax, this`magmax, xs, ys, mags
      ensures Shaped() && At(active, newDue) == Step(cfg, old(At(active, due)), e)
    {
      newDue := due;
      if e.code == ABS_MT_POSITION_X {
        SetX(active, Clamp(e.value, cfg.x, cfg.invertX));
        xmax, newDue := Span(cfg.x), true;
      } else if e.code == ABS_MT_POSITION_Y {
        SetY(active, Clamp(e.value, cfg.y, cfg.invertY));
        ymax, newDue := Span(cfg.y), true;
      } else if e.code == ABS_MT_TOUCH_MAJOR {
        if !cfg.hasPressure {
          SetMag(active, Clamp(e.value, WidthAxis(cfg), false));
          magmax, newDue := Span(WidthAxis(cfg)), true;
        }
      } else if e.code == ABS_MT_PRESSURE {
        if cfg.hasPressure {
          SetMag(active, Clamp(e.value, cfg.pressure, false));
          magmax, newDue := Span(cfg.pressure), true;
        }
      }
    }

    /** One turn of the loop, for an event the consumer takes. */
    method Turn(active: int, id: int, due: bool, e: Event) returns (newActive: int, newId: int, newDue: bool)
      requires Shaped() && Surface.Valid(At(active, due)) && id == ActiveId(At(active, due))
      modifies this`sent, this`contacts, this`xmax, this`ymax, this`magmax, ids, xs, ys, mags
      ensures Shaped() && At(newActive, newDue) == Step(cfg, old(At(active, due)), e)
      ensures Surface.Valid(At(newActive, newDue)) && newId == ActiveId(At(newActive, newDue))
    {
      newActive, newId, newDue := active, id, due;
      if e.code == ABS_MT_SLOT {
        newActive, newId := SlotEvent(active, due, e.value);
        newDue := false;
      } else if e.code == ABS_MT_TRACKING_ID {
        newActive, newId, newDue := TrackingEvent(active, due, e.value);
      } else if id >= 0 {
        newDue := AxisEvent(active, due, e);
      }
    }

    /** `consume_surface_report` from event `start`; the result is added to the caller's cursor, which
        then steps on to the next event. */
    method Consume(events: seq<Event>, start: nat) returns (consumed: nat, ghost stop: nat)
      requires Shaped() && Surface.Valid(View())
      requires start < |events| && IsMt(events[start].code)
      modifies this`active, this`sent, this`contacts, this`xmax, this`ymax, this`magmax, ids, xs, ys, mags
      ensures Shaped() && Surface.Valid(View())
      ensures start < stop <= |events| && (forall k :: start <= k < stop ==> !Ends(events[k]))
      ensures stop < |events| ==> Ends(events[stop])
      ensures consumed == if stop < |events| then stop - 1 - start else stop - start
      ensures var p := Steps(cfg, old(View()), events[start..stop]);
              View() == if stop < |events| then Settle(p) else p.(pending := false)
    {
      hide Shaped, Step;
      ghost var was := View();
      var i := start;
      var due := false;
      var contact := active;
      var id := GetId(contact);
      while i < |events|
        invariant start <= i <= |events| && Shaped()
        invariant forall k :: start <= k < i ==> !Ends(events[k])
        invariant Surface.Valid(At(contact, due)) && id == ActiveId(At(contact, due))
        invariant At(contact, due) == Steps(cfg, was, events[start..i])
      {
        if Ends(events[i]) {
          stop := i;
          if due && id >= 0 {
            Send(contact);
          }
          if i != 0 {
            i := i - 1;
          }
          active := contact;
          return i - start, stop;
        }
        StepsNext(cfg, was, events, start, i);
        contact, id, due := Turn(contact, id, due, events[i]);
        i := i + 1;
      }
      active := contact;
      return i - start, i;
    }
  }

  lemma StepsNext(cfg: Config, p: Pad, es: seq<Event>, start: nat, i: nat)
    requires Surface.Valid(p) && start <= i < |es|
    ensures Steps(cfg, p, es[start..i + 1]) == Step(cfg, Steps(cfg, p, es[start..i]), es[i])
  {
    assert es[start..i + 1][..i - start] == es[start..i];
  }

  // ---------------------------------------------------------------------------------------
  // The event loop

  /** Who handles an event. */
  datatype Handled = BySurface(index: nat) | ByLoop(index: nat)

  /** Event `i` of a batch belongs to a multi-touch run. */
  predicate ConsumedAt(es: seq<Event>, i: nat)
    requires i < |es|
  {
    Consumed(Route(-1, i > 0 && ConsumedAt(es, i - 1)), es[i])
  }

  function Trace(es: seq<Event>, n: nat): seq<Handled>
    requires n <= |es|
  {
    seq(n, i requires 0 <= i < n => if ConsumedAt(es, i) then BySurface(i) else ByLoop(i))
  }

  function BySurfaceAll(n: nat, stop: nat): seq<Handled>
    requires n <= stop
  {
    seq(stop - n, k requires 0 <= k < stop - n => BySurface(n + k))
  }

  function Items(es: seq<Event>): seq<Item> {
    seq(|es|, i requires 0 <= i < |es| => Ev(es[i]))
  }

  /** The loop's own handling of event `i` ends the callback. */
  predicate StopsAt(es: seq<Event>, ends: seq<bool>, i: nat)
    requires i < |es| == |ends|
  {
    !ConsumedAt(es, i) && ends[i]
  }

  ghost function Outside(t: Touchpad): Machine
    reads t`active, t`contacts, t`xmax, t`ymax, t`magmax, t`sent
  {
    Machine(t.View(), false)
  }

  /** The loop is before event `n`: either no run is open, or the consumer has just handed back the event
      that ended one, or the batch is over. */
  ghost predicate Between(cfg: Config, was: Machine, es: seq<Event>, n: nat, p: Pad)
    requires ValidMachine(was) && n <= |es|
  {
    var m := Run(cfg, was, Items(es[..n]));
    && m.inside == (n > 0 && ConsumedAt(es, n - 1))
    && if m.inside && n < |es| then Ends(es[n]) && p == Settle(m.pad) else p == m.pad.(pending := false)
  }

  lemma ItemsNext(cfg: Config, was: Machine, es: seq<Event>, n: nat)
    requires ValidMachine(was) && n < |es|
    ensures Run(cfg, was, Items(es[..n + 1])) == Next(cfg, Run(cfg, was, Items(es[..n])), Ev(es[n]))
  {
    var items := Items(es[..n + 1]);
    assert items[..n] == Items(es[..n]) && items[n] == Ev(es[n]);
  }

  /** The event is left to the loop. */
  lemma LoopEvent(cfg: Config, was: Machine, es: seq<Event>, n: nat, p: Pad)
    requires ValidMachine(was) && n < |es| && Between(cfg, was, es, n, p)
    requires !(es[n].kind == EV_ABS && IsMt(es[n].code))
    ensures Between(cfg, was, es, n + 1, p) && !ConsumedAt(es, n)
    ensures !Run(cfg, was, Items(es[..n + 1])).inside
  {
    ItemsNext(cfg, was, es, n);
  }

  /** The consumer runs from event `n` to just before event `stop`. */
  lemma {:induction false} RunEvents(cfg: Config, was: Machine, es: seq<Event>, n: nat, stop: nat)
    requires ValidMachine(was) && n < stop <= |es|
    requires var m := Run(cfg, was, Items(es[..n])); !m.inside && m.inside == (n > 0 && ConsumedAt(es, n - 1))
    requires es[n].kind == EV_ABS && IsMt(es[n].code)
    requires forall k :: n <= k < stop ==> !Ends(es[k])
    ensures var m := Run(cfg, was, Items(es[..n]));
            Run(cfg, was, Items(es[..stop])) == Machine(Steps(cfg, m.pad, es[n..stop]), true)
    ensures forall k :: n <= k < stop ==> ConsumedAt(es, k)
    decreases stop
  {
    hide Run, Step;
    ItemsNext(cfg, was, es, stop - 1);
    StepsNext(cfg, Run(cfg, was, Items(es[..n])).pad, es, n, stop - 1);
    if stop - 1 > n {
      RunEvents(cfg, was, es, n, stop - 1);
    } else {
      assert es[n..n] == [];
    }
  }

  lemma SurfaceEvents(cfg: Config, was: Machine, es: seq<Event>, n: nat, stop: nat, p: Pad, q: Pad)
    requires ValidMachine(was) && n < stop <= |es| && Between(cfg, was, es, n, p) && Surface.Valid(p)
    requires es[n].kind == EV_ABS && IsMt(es[n].code)
    requires (forall k :: n <= k < stop ==> !Ends(es[k])) && (stop < |es| ==> Ends(es[stop]))
    requires var r := Steps(cfg, p, es[n..stop]); q == if stop < |es| then Settle(r) else r.(pending := false)
    ensures Between(cfg, was, es, stop, q)
    ensures forall k :: n <= k < stop ==> ConsumedAt(es, k)
  {
    var m := Run(cfg, was, Items(es[..n]));
    assert !m.inside && p == m.pad;
    RunEvents(cfg, was, es, n, stop);
  }

  lemma TraceGrows(es: seq<Event>, n: nat, stop: nat)
    requires n <= stop <= |es| && forall k :: n <= k < stop ==> ConsumedAt(es, k)
    ensures Trace(es, n) + BySurfaceAll(n, stop) == Trace(es, stop)
  {
    var l, r := Trace(es, n) + BySurfaceAll(n, stop), Trace(es, stop);
    forall k | 0 <= k < stop
      ensures l[k] == r[k]
    {
      if k >= n {
        assert ConsumedAt(es, k) && l[k] == BySurfaceAll(n, stop)[k - n];
      }
    }
  }

  lemma TraceLoop(es: seq<Event>, n: nat)
    requires n < |es| && !ConsumedAt(es, n)
    ensures Trace(es, n) + [ByLoop(n)] == Trace(es, n + 1)
  {
  }

  lemma Started(cfg: Config, was: Machine, es: seq<Event>)
    requires ValidMachine(was) && !was.inside
    ensures Between(cfg, was, es, 0, was.pad) && Trace(es, 0) == []
  {
    assert Items(es[..0]) == [];
  }

  /** One call of the consumer by the loop. */
  method TakeRun(t: Touchpad, events: seq<Event>, i: nat, ghost was: Machine) returns (consumed: nat, ghost stop: nat)
    requires t.Shaped() && Surface.Valid(t.View()) && ValidMachine(was) && i < |events|
    requires Between(t.cfg, was, events, i, t.View()) && events[i].kind == EV_ABS && IsMt(events[i].code)
    modifies t, t.ids, t.xs, t.ys, t.mags
    ensures t.Shaped() && Surface.Valid(t.View()) && i < stop <= |events|
    ensures consumed == if stop < |events| then stop - 1 - i else stop - i
    ensures Between(t.cfg, was, events, stop, t.View())
    ensures Trace(events, i) + BySurfaceAll(i, stop) == Trace(events, stop)
    ensures forall k :: i <= k < stop ==> ConsumedAt(events, k)
  {
    hide Run, Between, ConsumedAt, Trace, BySurfaceAll;
    ghost var p := t.View();
    consumed, stop := t.Consume(events, i);
    SurfaceEvents(t.cfg, was, events, i, stop, p, t.View());
    TraceGrows(events, i, stop);
  }

  /** `transceive_evdev` on one batch, without the handling of the events it does not pass on;
      `ends[i]` says that handling event `i` itself would end the callback (no focused client,
      or a failed write).  Every event up to that point is handled exactly once and in order, by
      the loop or by the consumer, although the consumer rewinds the cursor; and the device
      and the reports are those of the one-pass machine. */
  method Transceive(t: Touchpad, events: seq<Event>, ends: seq<bool>) returns (ghost trace: seq<Handled>)
    requires t.Shaped() && Surface.Valid(t.View()) && |ends| == |events|
    modifies t, t.ids, t.xs, t.ys, t.mags
    ensures t.Shaped() && Surface.Valid(t.View())
    ensures |trace| <= |events| && trace == Trace(events, |trace|)
    ensures |trace| < |events| ==> |trace| > 0 && StopsAt(events, ends, |trace| - 1)
    ensures forall i :: 0 <= i < |trace| - 1 ==> !StopsAt(events, ends, i)
    ensures Outside(t) == Run(t.cfg, old(Outside(t)), Items(events[..|trace|]) + [BatchEnd])
  {
    ghost var was := Outside(t);
    Started(t.cfg, was, events);
    hide Run, Between, ConsumedAt, Trace, BySurfaceAll;
    trace := [];
    var i := 0;
    while i < |events|
      invariant t.Shaped() && Surface.Valid(t.View())
      invariant trace == Trace(events, Min(i, |events|)) && i <= |events| + 1
      invariant forall k :: 0 <= k < |trace| ==> !StopsAt(events, ends, k)
      invariant Between(t.cfg, was, events, Min(i, |events|), t.View())
    {
      if events[i].kind == EV_ABS && IsMt(events[i].code) {
        var consumed, stop := TakeRun(t, events, i, was);
        trace := trace + BySurfaceAll(i, stop);
        i := i + consumed;
      } else {
        LoopEvent(t.cfg, was, events, i, t.View());
        TraceLoop(events, i);
        trace := trace + [ByLoop(i)];
        if ends[i] {
          break;
        }
      }
      i := i + 1;
    }
    BatchDone(t.cfg, was, events, |trace|, t.View());
  }

  lemma BatchDone(cfg: Config, was: Machine, es: seq<Event>, n: nat, p: Pad)
    requires ValidMachine(was) && n <= |es| && Between(cfg, was, es, n, p)
    requires n < |es| ==> !Run(cfg, was, Items(es[..n])).inside
    ensures Machine(p, false) == Run(cfg, was, Items(es[..n]) + [BatchEnd])
  {
    var items := Items(es[..n]);
    assert (items + [BatchEnd])[..n] == items;
  }

  // ---------------------------------------------------------------------------------------
  // Which events the consumer takes

  /** An event that is meant for the consumer. */
  predicate IsSurface(e: Event) {
    e.kind == EV_ABS && IsMt(e.code)
  }

  /** The consumer looks at codes only.  Over a whole batch it takes exactly the multi-touch events if and
      only if no multi-touch event is directly followed by an event of another kind whose number
      happens to be a multi-touch code, or 2. */
  lemma TakenByKindIff(es: seq<Event>)
    ensures (forall i :: 0 <= i < |es| ==> (ConsumedAt(es, i) <==> IsSurface(es[i])))
            <==> (forall i :: 0 < i < |es| && IsSurface(es[i - 1]) && !Ends(es[i]) ==> IsSurface(es[i]))
  {
    if forall i :: 0 <= i < |es| ==> (ConsumedAt(es, i) <==> IsSurface(es[i])) {
      forall i | 0 < i < |es| && IsSurface(es[i - 1]) && !Ends(es[i])
        ensures IsSurface(es[i])
      {
        assert ConsumedAt(es, i - 1) && ConsumedAt(es, i);
      }
    }
    if forall i :: 0 < i < |es| && IsSurface(es[i - 1]) && !Ends(es[i]) ==> IsSurface(es[i]) {
      forall i | 0 <= i < |es|
        ensures ConsumedAt(es, i) <==> IsSurface(es[i])
      {
        TakenByKind(es, i);
      }
    }
  }

  lemma {:induction false} TakenByKind(es: seq<Event>, i: nat)
    requires i < |es|
    requires forall i :: 0 < i < |es| && IsSurface(es[i - 1]) && !Ends(es[i]) ==> IsSurface(es[i])
    ensures ConsumedAt(es, i) <==> IsSurface(es[i])
    decreases i
  {
    if i > 0 {
      TakenByKind(es, i - 1);
    }
  }

  const EV_KEY := 1
  const KEY_V := 47

  /** A press of the V key right after a multi-touch event is taken for a change of slot. */
  lemma KeyTakenForSlot(finger: Event)
    requires IsSurface(finger)
    ensures var es := [finger, Event(EV_KEY, KEY_V, 1)];
            ConsumedAt(es, 1) && Trace(es, 2) == [BySurface(0), BySurface(1)]
  {
    var es := [finger, Event(EV_KEY, KEY_V, 1)];
    assert ConsumedAt(es, 0) && ConsumedAt(es, 1);
  }
}
