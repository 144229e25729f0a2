/** Whole runs of the display: clients draw and report damage, screens are switched, added and
    removed, and vblank events flush the focused client (server.c, fb.c).

    Clients are listed in screen order; the head is the focused one.  `dirty` is ghost history: the
    pixels a client has drawn since it last reported them.  The server is active throughout, so
    only the vblank branch copies.

    A sprite may be registered with fewer bits per pixel than the screen has, but `copy_to_fb` reads its
    memory as if it had the screen's; pixels are those the copy reads, where there is memory for them. */
module Display {
  import opened Common
  import opened Blit
  import opened BlitExact
  import opened Damage
  import Lists
  import ClientRecord

  /** The fixed properties of the screen. */
  datatype Panel = Panel(align: nat, weight: nat, width: nat, height: nat, pitch: nat)

  /** `bytes` is the registered number of bytes per pixel. */
  datatype Sprite = Sprite(
    width: nat, height: nat, bytes: nat, pixels: seq<Byte>, slots: seq<Region>, dirty: set<(nat, nat)>)

  datatype State = State(fb: seq<Byte>, clients: seq<Sprite>, primed: bool)

  function Geo(p: Panel, c: Sprite): Geometry {
    Geometry(p.align, p.weight, p.width, p.pitch, c.width * p.weight)
  }

  predicate ValidPanel(p: Panel) {
    && IsAlign(p.align) && p.weight > 0 && (p.align == 32 ==> p.weight == 4)
    && p.width * p.weight < U16_RANGE && p.width + p.align < U16_RANGE && p.height < U16_RANGE
    && p.width * p.weight <= p.pitch
  }

  /** A sprite the server registered, with the damage the server accepted. */
  predicate ValidSprite(p: Panel, c: Sprite)
    requires ValidPanel(p)
  {
    && 0 < c.width <= p.width && 0 < c.height <= p.height
    && 0 < c.bytes <= p.weight && |c.pixels| == c.height * (c.width * c.bytes)
    && |c.slots| <= ClientRecord.DMG_SLOTS
    && (forall i :: 0 <= i < |c.slots| ==> Accepted(p.width, p.height, c.slots[i]))
    && (forall px :: px in c.dirty ==> px.0 < c.height && px.1 < c.width)
  }

  predicate ValidState(p: Panel, s: State)
    requires ValidPanel(p)
  {
    && |s.fb| >= p.height * p.pitch
    && forall i :: 0 <= i < |s.clients| ==> ValidSprite(p, s.clients[i])
  }

  /** A damage report, by the client or by the server on its behalf. */
  function Report(c: Sprite, d: Region): Sprite
    requires |c.slots| <= ClientRecord.DMG_SLOTS
  {
    c.(slots := Accumulate(c.slots, d), dirty := set px | px in c.dirty && !Covers(d, px.0, px.1))
  }

  /** `server_sync_fullscreen`. */
  function Resync(p: Panel, s: State): State
    requires ValidPanel(p) && ValidState(p, s)
  {
    if s.clients == [] then s.(primed := false)
    else
      var c := s.clients[0];
      s.(clients := s.clients[0 := Report(c, WholeOf(c.width, c.height))], primed := true)
  }

  datatype Event =
    | Connect(c: Sprite)
    | Draw(i: nat, row: nat, col: nat, value: seq<Byte>)
    | Sync(i: nat, d: Region)
    | FullSync
    | Switch
    | Remove(i: nat)
    | Vblank

  /** Every slot is refused or copied inside both buffers; the server checks slots against the screen
      only, and what a copy outside the sprite's memory does is not defined. */
  predicate SlotsInMemory(p: Panel, fbLen: nat, c: Sprite)
    requires ValidPanel(p)
  {
    forall i :: 0 <= i < |c.slots| ==> CopyIsSafe(fbLen, |c.pixels|, Geo(p, c), c.slots[i])
  }

  /** The next vblank stays in memory. */
  predicate InMemory(p: Panel, s: State)
    requires ValidPanel(p)
  {
    s.clients != [] ==> SlotsInMemory(p, |s.fb|, s.clients[0])
  }

  predicate NoneRefused(p: Panel, c: Sprite)
    requires ValidPanel(p)
  {
    forall i :: 0 <= i < |c.slots| ==> !Misaligned(Geo(p, c), c.slots[i])
  }

  /** An event that the program and its clients can produce, short of a copy outside memory. */
  predicate Enabled(p: Panel, s: State, e: Event)
    requires ValidPanel(p)
  {
    match e
    case Connect(c) => ValidSprite(p, c)
    case Draw(i, row, col, value) =>
      i < |s.clients| && InSprite(p, s.clients[i], row, col) && |value| == p.weight
    case Sync(i, d) => i < |s.clients| && Accepted(p.width, p.height, d)
    case Remove(i) => i < |s.clients|
    case FullSync => true
    case Switch => true
    case Vblank => InMemory(p, s)
  }

  /** A pixel of the sprite's rectangle, with memory behind it. */
  predicate InSprite(p: Panel, c: Sprite, row: nat, col: nat) {
    row < c.height && col < c.width && RowOffset(row, c.width * p.weight, col * p.weight) + p.weight <= |c.pixels|
  }

  /** At the screen's depth every pixel of the rectangle has memory. */
  lemma SpriteIsBacked(p: Panel, c: Sprite, row: nat, col: nat)
    requires ValidPanel(p) && ValidSprite(p, c) && c.bytes == p.weight && row < c.height && col < c.width
    ensures InSprite(p, c, row, col)
  {
    PixelInside(|c.pixels|, c.width * p.weight, p.weight, c.width, c.height, row, col);
  }

  lemma ScreenIsBacked(p: Panel, s: State, row: nat, col: nat)
    requires ValidPanel(p) && ValidState(p, s) && row < p.height && col < p.width
    ensures RowOffset(row, p.pitch, col * p.weight) + p.weight <= |s.fb|
  {
    PixelInside(|s.fb|, p.pitch, p.weight, p.width, p.height, row, col);
  }

  function SpritePixel(p: Panel, c: Sprite, row: nat, col: nat): seq<Byte>
    requires InSprite(p, c, row, col)
  {
    Pixel(c.pixels, c.width * p.weight, p.weight, row, col)
  }

  function ScreenPixel(p: Panel, s: State, row: nat, col: nat): seq<Byte>
    requires ValidPanel(p) && ValidState(p, s) && row < p.height && col < p.width
  {
    ScreenIsBacked(p, s, row, col);
    Pixel(s.fb, p.pitch, p.weight, row, col)
  }

  /** `fb_drm_fd_callback` on a vblank event. */
  function Flush(p: Panel, s: State): (t: State)
    requires ValidPanel(p) && ValidState(p, s) && InMemory(p, s)
  {
    if s.clients == [] then s
    else
      var c := s.clients[0];
      var (fb, ok) := CopySlots(s.fb, c.pixels, Geo(p, c), c.slots);
      s.(fb := fb, clients := if ok then s.clients[0 := c.(slots := [])] else s.clients)
  }

  function DrawPixel(p: Panel, c: Sprite, row: nat, col: nat, value: seq<Byte>): Sprite
    requires InSprite(p, c, row, col) && |value| == p.weight
  {
    c.(pixels := Store(c.pixels, RowOffset(row, c.width * p.weight, col * p.weight), value),
       dirty := c.dirty + {(row, col)})
  }

  function Step(p: Panel, s: State, e: Event): State
    requires ValidPanel(p) && ValidState(p, s) && Enabled(p, s, e)
  {
    match e
    case Connect(c) => s.(clients := s.clients + [c], primed := s.primed && s.clients != [])
    case Draw(i, row, col, value) => s.(clients := s.clients[i := DrawPixel(p, s.clients[i], row, col, value)])
    case Sync(i, d) =>
      s.(clients := s.clients[i := Report(s.clients[i], d)],
         primed := s.primed || (i == 0 && d == WholeOf(s.clients[0].width, s.clients[0].height)))
    case FullSync => Resync(p, s)
    case Switch =>
      if |s.clients| < 2 then s
      else
        assert forall k :: 0 <= k < |s.clients| - 1 ==> s.clients[1..][k] == s.clients[k + 1];
        Resync(p, s.(clients := s.clients[1..] + [s.clients[0]]))
    case Remove(i) => Resync(p, s.(clients := s.clients[..i] + s.clients[i + 1..]))
    case Vblank => Flush(p, s)
  }

  // ---------------------------------------------------------------------------------------
  // The staleness invariant

  /** Pixel by pixel: the screen shows the focused sprite, or the client has drawn without
      reporting, or the pixel lies in a damage slot that awaits the next vblank. */
  ghost predicate Explained(p: Panel, s: State)
    requires ValidPanel(p) && ValidState(p, s) && s.clients != []
  {
    var c := s.clients[0];
    forall row: nat, col: nat {:trigger Covered(c.slots, row, col)} | InSprite(p, c, row, col) ::
      || ScreenPixel(p, s, row, col) == SpritePixel(p, c, row, col)
      || (row, col) in c.dirty
      || Covered(c.slots, row, col)
  }

  ghost predicate Inv(p: Panel, s: State)
    requires ValidPanel(p)
  {
    ValidState(p, s) && (s.primed ==> s.clients != [] && Explained(p, s))
  }

  lemma ReportIsValid(p: Panel, c: Sprite, d: Region)
    requires ValidPanel(p) && ValidSprite(p, c) && Accepted(p.width, p.height, d)
    ensures ValidSprite(p, Report(c, d))
    ensures forall row: nat, col: nat :: Covered(c.slots, row, col) || Covers(d, row, col)
                                         ==> Covered(Report(c, d).slots, row, col)
  {
    AccumulateCovers(c.slots, d, p.width, p.height);
  }

  /** A report on behalf of the focused client keeps the invariant; a full report establishes it. */
  lemma ReportExplains(p: Panel, s: State, d: Region, primed: bool)
    requires ValidPanel(p) && ValidState(p, s) && s.clients != []
    requires Accepted(p.width, p.height, d)
    requires d == WholeOf(s.clients[0].width, s.clients[0].height) || Explained(p, s)
    ensures var t := s.(clients := s.clients[0 := Report(s.clients[0], d)], primed := primed);
            ValidState(p, t) && Explained(p, t)
  {
    var c := s.clients[0];
    ReportIsValid(p, c, d);
    var t := s.(clients := s.clients[0 := Report(c, d)], primed := primed);
    forall row: nat, col: nat | InSprite(p, c, row, col)
      ensures || ScreenPixel(p, t, row, col) == SpritePixel(p, t.clients[0], row, col)
              || (row, col) in t.clients[0].dirty
              || Covered(t.clients[0].slots, row, col)
    {
      if Covers(d, row, col) || Covered(c.slots, row, col) {
        assert Covered(t.clients[0].slots, row, col);
      } else {
        assert ScreenPixel(p, t, row, col) == ScreenPixel(p, s, row, col);
      }
    }
  }

  lemma ResyncExplains(p: Panel, s: State)
    requires ValidPanel(p) && ValidState(p, s)
    ensures Inv(p, Resync(p, s)) && (Resync(p, s).primed <==> s.clients != [])
  {
    if s.clients != [] {
      ReportExplains(p, s, WholeOf(s.clients[0].width, s.clients[0].height), true);
    }
  }

  /** Storing one pixel leaves the others alone. */
  lemma StoredPixel(buf: seq<Byte>, weight: nat, width: nat, row: nat, col: nat, value: seq<Byte>, r: nat, k: nat)
    requires col < width && k < width && |value| == weight && (r, k) != (row, col)
    requires RowOffset(row, width * weight, col * weight) + weight <= |buf|
    requires RowOffset(r, width * weight, k * weight) + weight <= |buf|
    ensures Pixel(Store(buf, RowOffset(row, width * weight, col * weight), value), width * weight, weight, r, k)
         == Pixel(buf, width * weight, weight, r, k)
  {
    hide RowOffset;
    ScaledOrder(col, 0, 0, width, weight);
    ScaledOrder(k, 0, 0, width, weight);
    NonNegative(col, weight);
    NonNegative(k, weight);
    StoredApart(buf, width * weight, weight, row, col, col * weight, value, r, k, k * weight);
  }

  lemma StoredApart(buf: seq<Byte>, stride: nat, weight: nat, row: nat, col: nat, x: nat, value: seq<Byte>,
                    r: nat, k: nat, z: nat)
    requires x == col * weight && z == k * weight && x + weight <= stride && z + weight <= stride
    requires RowOffset(row, stride, x) + weight <= |buf| && RowOffset(r, stride, z) + weight <= |buf|
    requires (r, k) != (row, col) && |value| == weight
    ensures Store(buf, RowOffset(row, stride, x), value)[RowOffset(r, stride, z)..RowOffset(r, stride, z) + weight]
         == buf[RowOffset(r, stride, z)..RowOffset(r, stride, z) + weight]
  {
    var at, from := RowOffset(row, stride, x), RowOffset(r, stride, z);
    if k < col {
      ScaledOrder(k, col, 0, col, weight);
    } else if col < k {
      ScaledOrder(col, k, 0, k, weight);
    }
    forall i | from <= i < from + weight
      ensures Store(buf, at, value)[i] == buf[i]
    {
      if at <= i < at + weight {
        SameRow(stride, row, x, weight, r, z, weight, i);
      }
    }
  }

  lemma DrawKeeps(p: Panel, s: State, i: nat, row: nat, col: nat, value: seq<Byte>)
    requires ValidPanel(p) && Inv(p, s) && Enabled(p, s, Draw(i, row, col, value))
    ensures Inv(p, Step(p, s, Draw(i, row, col, value)))
  {
    var t := Step(p, s, Draw(i, row, col, value));
    DrawnIsValid(p, s.clients[i], row, col, value);
    assert ValidState(p, t);
    hide DrawPixel;
    if s.primed && i == 0 {
      DrawExplained(p, s, row, col, value);
    } else if s.primed {
      SameScreen(p, s, t);
    }
  }

  lemma DrawnIsValid(p: Panel, c: Sprite, row: nat, col: nat, value: seq<Byte>)
    requires ValidPanel(p) && ValidSprite(p, c) && InSprite(p, c, row, col) && |value| == p.weight
    ensures ValidSprite(p, DrawPixel(p, c, row, col, value))
  {
  }

  /** Drawing on the focused sprite leaves at most the drawn pixel unreported. */
  lemma DrawExplained(p: Panel, s: State, row: nat, col: nat, value: seq<Byte>)
    requires ValidPanel(p) && ValidState(p, s) && s.clients != [] && Explained(p, s)
    requires InSprite(p, s.clients[0], row, col) && |value| == p.weight
    ensures var d := DrawPixel(p, s.clients[0], row, col, value);
            ValidSprite(p, d) && Explained(p, s.(clients := s.clients[0 := d]))
  {
    var c := s.clients[0];
    var d := DrawPixel(p, c, row, col, value);
    DrawnIsValid(p, c, row, col, value);
    var t := s.(clients := s.clients[0 := d]);
    assert d.slots == c.slots && d.width == c.width && d.height == c.height;
    forall r: nat, k: nat | InSprite(p, d, r, k)
      ensures || ScreenPixel(p, t, r, k) == SpritePixel(p, d, r, k)
              || (r, k) in d.dirty
              || Covered(d.slots, r, k)
    {
      DrawnPixel(p, s, row, col, value, r, k);
      assert Covered(c.slots, r, k) || !Covered(c.slots, r, k);
    }
  }

  lemma DrawnPixel(p: Panel, s: State, row: nat, col: nat, value: seq<Byte>, r: nat, k: nat)
    requires ValidPanel(p) && ValidState(p, s) && s.clients != []
    requires InSprite(p, s.clients[0], row, col) && |value| == p.weight
    requires InSprite(p, s.clients[0], r, k)
    ensures var c := s.clients[0];
            var d := DrawPixel(p, c, row, col, value);
            var t := s.(clients := s.clients[0 := d]);
            && ValidSprite(p, d) && ValidState(p, t) && InSprite(p, d, r, k)
            && ScreenPixel(p, t, r, k) == ScreenPixel(p, s, r, k)
            && ((r, k) in d.dirty || SpritePixel(p, d, r, k) == SpritePixel(p, c, r, k))
            && ((r, k) in c.dirty ==> (r, k) in d.dirty)
  {
    var c := s.clients[0];
    DrawnIsValid(p, c, row, col, value);
    if (r, k) != (row, col) {
      StoredPixel(c.pixels, p.weight, c.width, row, col, value, r, k);
    }
  }

  /** The invariant depends only on the screen and the focused sprite. */
  lemma SameScreen(p: Panel, s: State, t: State)
    requires ValidPanel(p) && ValidState(p, s) && ValidState(p, t) && s.clients != [] && t.clients != []
    requires s.fb == t.fb && s.clients[0] == t.clients[0] && Explained(p, s)
    ensures Explained(p, t)
  {
    var c := s.clients[0];
    forall row: nat, col: nat | InSprite(p, c, row, col)
      ensures || ScreenPixel(p, t, row, col) == SpritePixel(p, c, row, col)
              || (row, col) in c.dirty
              || Covered(c.slots, row, col)
    {
      assert ScreenPixel(p, t, row, col) == ScreenPixel(p, s, row, col);
      assert Covered(c.slots, row, col) || !Covered(c.slots, row, col);
    }
  }

  // ---------------------------------------------------------------------------------------
  // Vblank

  /** Copying any number of slots: a pixel of the sprite's rectangle ends with the sprite's value
      or is as it was, and, unless a slot is refused, ends with the sprite's value when a slot
      covers it. */
  lemma {:induction false} CopySlotsPixel(p: Panel, s: State, c: Sprite, row: nat, col: nat)
    requires ValidPanel(p) && ValidState(p, s) && ValidSprite(p, c) && SlotsInMemory(p, |s.fb|, c)
    requires InSprite(p, c, row, col)
    ensures var (fb, ok) := CopySlots(s.fb, c.pixels, Geo(p, c), c.slots);
            && (ok <==> NoneRefused(p, c))
            && var after := ScreenPixel(p, s.(fb := fb), row, col);
            && (after == SpritePixel(p, c, row, col) || after == ScreenPixel(p, s, row, col))
            && (ok && Covered(c.slots, row, col) ==> after == SpritePixel(p, c, row, col))
    decreases |c.slots|
  {
    hide Covers, Covered, CopyToFbSpec, Misaligned, CopyIsSafe, Pixel, Accepted, NoneRefused, Backed;
    if c.slots == [] {
      NoSlots(p, c, row, col);
    } else {
      var rest, d := c.slots[..|c.slots| - 1], c.slots[|c.slots| - 1];
      var b := c.(slots := rest);
      LastSlot(p, |s.fb|, c);
      CopySlotsPixel(p, s, b, row, col);
      assert SpritePixel(p, b, row, col) == SpritePixel(p, c, row, col);
      CoveredSplit(c.slots, row, col);
      if NoneRefused(p, c) {
        CopyPixel(p, s.(fb := CopySlots(s.fb, c.pixels, Geo(p, c), rest).0), c, d, row, col);
      }
    }
  }

  lemma NoSlots(p: Panel, c: Sprite, row: nat, col: nat)
    requires ValidPanel(p) && c.slots == []
    ensures NoneRefused(p, c) && !Covered(c.slots, row, col)
  {
  }

  lemma LastSlot(p: Panel, fbLen: nat, c: Sprite)
    requires ValidPanel(p) && ValidSprite(p, c) && SlotsInMemory(p, fbLen, c) && c.slots != []
    ensures var d, b := c.slots[|c.slots| - 1], c.(slots := c.slots[..|c.slots| - 1]);
            && ValidSprite(p, b) && SlotsInMemory(p, fbLen, b) && Geo(p, b) == Geo(p, c)
            && Accepted(p.width, p.height, d) && CopyIsSafe(fbLen, |c.pixels|, Geo(p, c), d)
            && (NoneRefused(p, c) <==> NoneRefused(p, b) && !Misaligned(Geo(p, c), d))
  {
    hide Accepted, CopyIsSafe, Misaligned;
  }

  lemma CoveredSplit(slots: seq<Region>, row: nat, col: nat)
    requires slots != []
    ensures Covered(slots, row, col)
            <==> Covered(slots[..|slots| - 1], row, col) || Covers(slots[|slots| - 1], row, col)
  {
    var rest := slots[..|slots| - 1];
    if Covered(slots, row, col) && !Covers(slots[|slots| - 1], row, col) {
      var i :| 0 <= i < |slots| && Covers(slots[i], row, col);
      assert Covers(rest[i], row, col);
    }
    if Covered(rest, row, col) {
      var i :| 0 <= i < |rest| && Covers(rest[i], row, col);
      assert Covers(slots[i], row, col);
    }
  }

  /** One copy, seen at one pixel of the sprite's rectangle. */
  lemma CopyPixel(p: Panel, s: State, c: Sprite, d: Region, row: nat, col: nat)
    requires ValidPanel(p) && ValidState(p, s) && ValidSprite(p, c) && Accepted(p.width, p.height, d)
    requires CopyIsSafe(|s.fb|, |c.pixels|, Geo(p, c), d) && !Misaligned(Geo(p, c), d)
    requires InSprite(p, c, row, col)
    ensures var g := Geo(p, c);
            var after := ScreenPixel(p, s.(fb := CopyToFbSpec(s.fb, c.pixels, g, d).value), row, col);
            && (after == SpritePixel(p, c, row, col) || after == ScreenPixel(p, s, row, col))
            && (Covers(d, row, col) ==> after == SpritePixel(p, c, row, col))
  {
    var g := Geo(p, c);
    CopyIsExact(s.fb, c.pixels, g, d, p.height, row, col);
    SpanOfNarrow(g, d);
  }

  /** The slots are emptied if and only if no copy is refused. */
  lemma {:induction false} CopiedUnlessRefused(fb: seq<Byte>, sp: seq<Byte>, g: Geometry, slots: seq<Region>)
    requires ValidGeometry(g)
    requires forall i :: 0 <= i < |slots| ==> CopyIsSafe(|fb|, |sp|, g, slots[i])
    ensures CopySlots(fb, sp, g, slots).1 <==> forall i :: 0 <= i < |slots| ==> !Misaligned(g, slots[i])
    decreases |slots|
  {
    hide CopyToFbSpec, Misaligned, CopyIsSafe;
    if slots != [] {
      var rest, d := slots[..|slots| - 1], slots[|slots| - 1];
      CopiedUnlessRefused(fb, sp, g, rest);
      assert forall i :: 0 <= i < |rest| ==> rest[i] == slots[i];
      assert Misaligned(g, d) || !Misaligned(g, d);
    }
  }

  lemma FlushState(p: Panel, s: State)
    requires ValidPanel(p) && ValidState(p, s) && s.clients != [] && InMemory(p, s)
    ensures var t, c := Flush(p, s), s.clients[0];
            && ValidState(p, t)
            && t.clients == s.clients[0 := if NoneRefused(p, c) then c.(slots := []) else c]
  {
    var c := s.clients[0];
    CopiedUnlessRefused(s.fb, c.pixels, Geo(p, c), c.slots);
  }

  lemma FlushPixel(p: Panel, s: State, row: nat, col: nat)
    requires ValidPanel(p) && ValidState(p, s) && s.clients != [] && InMemory(p, s)
    requires InSprite(p, s.clients[0], row, col)
    ensures var t, c := Flush(p, s), s.clients[0];
            && ValidState(p, t)
            && (ScreenPixel(p, t, row, col) == SpritePixel(p, c, row, col)
                || ScreenPixel(p, t, row, col) == ScreenPixel(p, s, row, col))
            && (NoneRefused(p, c) && Covered(c.slots, row, col) ==>
                  ScreenPixel(p, t, row, col) == SpritePixel(p, c, row, col))
  {
    hide Covered, NoneRefused;
    CopySlotsPixel(p, s, s.clients[0], row, col);
    FlushState(p, s);
  }

  /** Whether a copy is refused or not. */
  lemma FlushKeeps(p: Panel, s: State)
    requires ValidPanel(p) && Inv(p, s) && InMemory(p, s)
    ensures Inv(p, Flush(p, s))
  {
    if s.clients != [] {
      FlushState(p, s);
      if s.primed {
        FlushExplains(p, s);
      }
    }
  }

  lemma FlushExplains(p: Panel, s: State)
    requires ValidPanel(p) && ValidState(p, s) && s.clients != [] && InMemory(p, s) && Explained(p, s)
    requires ValidState(p, Flush(p, s)) && Flush(p, s).clients != []
    ensures Explained(p, Flush(p, s))
  {
    FlushState(p, s);
    var t, c := Flush(p, s), s.clients[0];
    hide NoneRefused, InMemory, Flush;
    forall row: nat, col: nat | InSprite(p, t.clients[0], row, col)
      ensures || ScreenPixel(p, t, row, col) == SpritePixel(p, t.clients[0], row, col)
              || (row, col) in t.clients[0].dirty
              || Covered(t.clients[0].slots, row, col)
    {
      assert InSprite(p, c, row, col);
      FlushPixel(p, s, row, col);
      assert Covered(c.slots, row, col) || !Covered(c.slots, row, col);
    }
  }

  lemma StepKeeps(p: Panel, s: State, e: Event)
    requires ValidPanel(p) && Inv(p, s) && Enabled(p, s, e)
    ensures Inv(p, Step(p, s, e))
  {
    hide Flush, DrawPixel, InMemory;
    match e
    case Connect(c) =>
      if s.primed {
        SameScreen(p, s, Step(p, s, e));
      }
    case Draw(i, row, col, value) => DrawKeeps(p, s, i, row, col, value);
    case Sync(i, d) =>
      ReportIsValid(p, s.clients[i], d);
      var t := Step(p, s, e);
      if i == 0 && t.primed {
        ReportExplains(p, s, d, t.primed);
      } else if s.primed {
        SameScreen(p, s, t);
      }
    case FullSync => ResyncExplains(p, s);
    case Switch =>
      if |s.clients| >= 2 {
        ResyncExplains(p, s.(clients := s.clients[1..] + [s.clients[0]]));
      }
    case Remove(i) => ResyncExplains(p, s.(clients := s.clients[..i] + s.clients[i + 1..]));
    case Vblank => FlushKeeps(p, s);
  }

  /** A run: a start with no client, then events each enabled where it happens. */
  ghost predicate Reachable(p: Panel, es: seq<Event>, s: State)
    requires ValidPanel(p)
  {
    if es == [] then
      |s.fb| >= p.height * p.pitch && s.clients == [] && !s.primed
    else
      exists r :: Reachable(p, es[..|es| - 1], r) && ValidState(p, r)
                  && Enabled(p, r, es[|es| - 1]) && s == Step(p, r, es[|es| - 1])
  }

  lemma {:induction false} RunsAreExplained(p: Panel, es: seq<Event>, s: State)
    requires ValidPanel(p) && Reachable(p, es, s)
    ensures Inv(p, s)
  {
    if es != [] {
      var r :| Reachable(p, es[..|es| - 1], r) && ValidState(p, r)
               && Enabled(p, r, es[|es| - 1]) && s == Step(p, r, es[|es| - 1]);
      RunsAreExplained(p, es[..|es| - 1], r);
      StepKeeps(p, r, es[|es| - 1]);
    }
  }

  /** The screen shows the focused sprite over its whole rectangle. */
  ghost predicate ShowsFocused(p: Panel, s: State)
    requires ValidPanel(p) && ValidState(p, s)
  {
    s.clients != [] &&
    forall row: nat, col: nat {:trigger ScreenPixel(p, s, row, col)}
      | row < s.clients[0].height && col < s.clients[0].width ::
      InSprite(p, s.clients[0], row, col) && ScreenPixel(p, s, row, col) == SpritePixel(p, s.clients[0], row, col)
  }

  /** Drawing reported, then one vblank that refuses nothing: the screen is exact wherever the sprite
      has memory.  For every reachable state. */
  lemma VblankShowsReported(p: Panel, es: seq<Event>, s: State, row: nat, col: nat)
    requires ValidPanel(p) && Reachable(p, es, s) && s.primed && s.clients != [] && s.clients[0].dirty == {}
    requires InMemory(p, s) && NoneRefused(p, s.clients[0]) && InSprite(p, s.clients[0], row, col)
    ensures ValidState(p, s) && ValidState(p, Flush(p, s))
    ensures ScreenPixel(p, Flush(p, s), row, col) == SpritePixel(p, s.clients[0], row, col)
  {
    RunsAreExplained(p, es, s);
    ReportedIsShown(p, s, row, col);
  }

  lemma ReportedIsShown(p: Panel, s: State, row: nat, col: nat)
    requires ValidPanel(p) && Inv(p, s) && s.primed && s.clients[0].dirty == {}
    requires InMemory(p, s) && NoneRefused(p, s.clients[0]) && InSprite(p, s.clients[0], row, col)
    ensures ValidState(p, Flush(p, s))
    ensures ScreenPixel(p, Flush(p, s), row, col) == SpritePixel(p, s.clients[0], row, col)
  {
    var c := s.clients[0];
    hide NoneRefused, InMemory;
    FlushPixel(p, s, row, col);
    assert Covered(c.slots, row, col) || !Covered(c.slots, row, col);
  }

  lemma NothingDirty(p: Panel, c: Sprite)
    requires ValidPanel(p) && ValidSprite(p, c)
    ensures Report(c, WholeOf(c.width, c.height)).dirty == {}
  {
    forall px | px in c.dirty
      ensures Covers(WholeOf(c.width, c.height), px.0, px.1)
    {
    }
  }

  /** What is copied in memory has memory. */
  lemma CoveredIsBacked(p: Panel, s: State, c: Sprite, row: nat, col: nat)
    requires ValidPanel(p) && ValidState(p, s) && ValidSprite(p, c) && SlotsInMemory(p, |s.fb|, c) && NoneRefused(p, c)
    requires Covered(c.slots, row, col) && row < c.height && col < c.width
    ensures InSprite(p, c, row, col)
  {
    var k :| 0 <= k < |c.slots| && Covers(c.slots[k], row, col);
    var g, d := Geo(p, c), c.slots[k];
    assert CopyIsSafe(|s.fb|, |c.pixels|, g, d) && !Misaligned(g, d) && Accepted(p.width, p.height, d);
    hide CopyIsSafe, Misaligned, SlotsInMemory, NoneRefused;
    CopyIsExact(s.fb, c.pixels, g, d, p.height, row, col);
    SpanOfNarrow(g, d);
  }

  /** After a switch, a vblank that stays in memory and refuses nothing shows the new sprite, whatever
      was pending before. */
  ghost predicate SwitchShows(p: Panel, s: State)
    requires ValidPanel(p) && ValidState(p, s) && |s.clients| >= 2
  {
    var t := Step(p, s, Switch);
    && ValidState(p, t)
    && (InMemory(p, t) ==>
          && ValidState(p, Flush(p, t)) && ShowsFocused(p, Flush(p, t))
          && Flush(p, t).clients[0].pixels == s.clients[1].pixels)
  }

  /** A whole report, then a vblank that stays in memory and refuses nothing. */
  lemma WholeIsShown(p: Panel, t: State)
    requires ValidPanel(p) && Inv(p, t) && t.primed && t.clients[0].dirty == {}
    requires InMemory(p, t) && NoneRefused(p, t.clients[0])
    requires forall row: nat, col: nat :: row < t.clients[0].height && col < t.clients[0].width ==>
               Covered(t.clients[0].slots, row, col)
    ensures ValidState(p, Flush(p, t)) && ShowsFocused(p, Flush(p, t))
    ensures Flush(p, t).clients[0].pixels == t.clients[0].pixels
  {
    FlushState(p, t);
    var c, u := t.clients[0], Flush(p, t);
    forall row: nat, col: nat | row < c.height && col < c.width
      ensures InSprite(p, u.clients[0], row, col)
      ensures ScreenPixel(p, u, row, col) == SpritePixel(p, u.clients[0], row, col)
    {
      CoveredIsBacked(p, t, c, row, col);
      ReportedIsShown(p, t, row, col);
    }
  }

  /** The report a switch makes covers the whole sprite of the new focus. */
  lemma SwitchReports(p: Panel, s: State)
    requires ValidPanel(p) && Inv(p, s) && |s.clients| >= 2
    ensures var t := Step(p, s, Switch);
            && Inv(p, t) && t.primed && t.clients[0].dirty == {} && t.clients[0].pixels == s.clients[1].pixels
            && forall row: nat, col: nat :: row < t.clients[0].height && col < t.clients[0].width ==>
                 Covered(t.clients[0].slots, row, col)
  {
    var c := s.clients[1];
    var d := WholeOf(c.width, c.height);
    var t := Step(p, s, Switch);
    StepKeeps(p, s, Switch);
    NothingDirty(p, c);
    ReportIsValid(p, c, d);
    assert t.clients[0] == Report(c, d);
    assert forall row: nat, col: nat :: row < c.height && col < c.width ==> Covers(d, row, col);
  }

  /** A screen switch followed by one vblank that refuses nothing shows the new sprite, whatever was
      pending before. */
  lemma SwitchThenVblank(p: Panel, es: seq<Event>, s: State)
    requires ValidPanel(p) && Reachable(p, es, s) && |s.clients| >= 2
    ensures ValidState(p, s)
    ensures NoneRefused(p, Step(p, s, Switch).clients[0]) ==> SwitchShows(p, s)
  {
    hide Step, InMemory, NoneRefused, Flush, ShowsFocused;
    RunsAreExplained(p, es, s);
    SwitchReports(p, s);
    var t := Step(p, s, Switch);
    if InMemory(p, t) && NoneRefused(p, t.clients[0]) {
      WholeIsShown(p, t);
    }
  }

  // ---------------------------------------------------------------------------------------
  // When every copy is made

  /** What the conditions on the slots come to: on a screen of whole cells a slot is copied inside both
      buffers if and only if the end of its last row lies inside the sprite's memory. */
  lemma CopiedIff(p: Panel, s: State, c: Sprite, d: Region)
    requires ValidPanel(p) && ValidState(p, s) && ValidSprite(p, c) && Accepted(p.width, p.height, d)
    requires p.width % p.align == 0
    ensures !Misaligned(Geo(p, c), d)
    ensures CopyIsSafe(|s.fb|, |c.pixels|, Geo(p, c), d) <==> LastRowEnd(Geo(p, c), d) <= |c.pixels|
  {
    var g := Geo(p, c);
    RefusedIff(g, d);
    CellFacts(p.align, p.width, 0, p.width);
    StaysInsideSpriteIff(g, d, |s.fb|, |c.pixels|, p.height);
  }

  lemma NothingRefused(p: Panel, c: Sprite)
    requires ValidPanel(p) && ValidSprite(p, c) && p.width % p.align == 0
    ensures NoneRefused(p, c)
  {
    forall i | 0 <= i < |c.slots|
      ensures !Misaligned(Geo(p, c), c.slots[i])
    {
      RefusedIff(Geo(p, c), c.slots[i]);
      CellFacts(p.align, p.width, 0, p.width);
    }
  }

  /** A run that ends where a switch and a vblank, which stays in memory, do not show the new sprite. */
  ghost predicate SwitchMisses(p: Panel, es: seq<Event>, s: State)
    requires ValidPanel(p)
  {
    Reachable(p, es, s) && |s.clients| >= 2 && ValidState(p, s) && !SwitchShows(p, s)
  }

  lemma WholeCellSwitch(p: Panel, es: seq<Event>, s: State)
    requires ValidPanel(p) && p.width % p.align == 0
    ensures !SwitchMisses(p, es, s)
  {
    if SwitchMisses(p, es, s) {
      RunsAreExplained(p, es, s);
      SwitchReports(p, s);
      hide SwitchShows, Step, NoneRefused;
      NothingRefused(p, Step(p, s, Switch).clients[0]);
      SwitchThenVblank(p, es, s);
    }
  }

  /** The exact condition: on every run, a switch and a vblank that stays in memory show the new sprite, if
      and only if the screen is a whole number of grid cells wide. */
  lemma SwitchShowsIff(p: Panel)
    requires ValidPanel(p) && p.width > 0 && p.height > 0
    ensures (forall es, s :: !SwitchMisses(p, es, s)) <==> p.width % p.align == 0
  {
    hide SwitchMisses;
    if p.width % p.align == 0 {
      forall es, s
        ensures !SwitchMisses(p, es, s)
      {
        WholeCellSwitch(p, es, s);
      }
    } else {
      var es, s := RefusedSwitch(p);
    }
  }

  /** A run that ends where every drawing of the focused client is reported, and a vblank that stays in
      memory leaves a pixel of it stale. */
  ghost predicate VblankMisses(p: Panel, es: seq<Event>, s: State)
    requires ValidPanel(p)
  {
    Reachable(p, es, s) && ValidState(p, s) && LeavesStale(p, s)
  }

  ghost predicate LeavesStale(p: Panel, s: State)
    requires ValidPanel(p) && ValidState(p, s)
  {
    && s.primed && s.clients != [] && s.clients[0].dirty == {} && InMemory(p, s)
    && ValidState(p, Flush(p, s))
    && exists row: nat, col: nat ::
         && InSprite(p, s.clients[0], row, col)
         && ScreenPixel(p, Flush(p, s), row, col) != SpritePixel(p, s.clients[0], row, col)
  }

  lemma WholeCellVblank(p: Panel, es: seq<Event>, s: State)
    requires ValidPanel(p) && p.width % p.align == 0
    ensures !VblankMisses(p, es, s)
  {
    if VblankMisses(p, es, s) {
      RunsAreExplained(p, es, s);
      NothingRefused(p, s.clients[0]);
      var row: nat, col: nat :|
        && InSprite(p, s.clients[0], row, col)
        && ScreenPixel(p, Flush(p, s), row, col) != SpritePixel(p, s.clients[0], row, col);
      ReportedIsShown(p, s, row, col);
    }
  }

  /** The exact condition for a vblank once everything is reported. */
  lemma VblankShowsIff(p: Panel)
    requires ValidPanel(p) && p.width > 0 && p.height > 0
    ensures (forall es, s :: !VblankMisses(p, es, s)) <==> p.width % p.align == 0
  {
    hide VblankMisses;
    if p.width % p.align == 0 {
      forall es, s
        ensures !VblankMisses(p, es, s)
      {
        WholeCellVblank(p, es, s);
      }
    } else {
      var es, s := RefusedSwitch(p);
      StaleAfterSwitch(p, es, s);
    }
  }

  lemma ReachNext(p: Panel, es: seq<Event>, s: State, e: Event)
    requires ValidPanel(p) && Reachable(p, es, s) && ValidState(p, s) && Enabled(p, s, e)
    ensures Reachable(p, es + [e], Step(p, s, e))
  {
    assert (es + [e])[..|es + [e]| - 1] == es;
  }

  /** A sprite as large as the screen, all of one value. */
  function Canvas(p: Panel): Sprite {
    Sprite(p.width, p.height, p.weight, seq(p.height * (p.width * p.weight), i => 1), [], {})
  }

  function Canvases(p: Panel): State {
    State(seq(p.height * p.pitch, i => 0), [Canvas(p), Canvas(p)], false)
  }

  /** On a screen that ends in an incomplete cell, two such clients on a blank screen: the switch reports the
      whole sprite, and the copy is refused. */
  lemma RefusedSwitch(p: Panel) returns (es: seq<Event>, s: State)
    requires ValidPanel(p) && p.width > 0 && p.height > 0 && p.width % p.align != 0
    ensures Reachable(p, es, s) && s == Canvases(p) && ValidState(p, s) && SwitchMisses(p, es, s)
  {
    var c := Canvas(p);
    var blank := State(seq(p.height * p.pitch, i => 0), [], false);
    assert Reachable(p, [], blank);
    hide Reachable, SwitchShows;
    ReachNext(p, [], blank, Connect(c));
    var one := Step(p, blank, Connect(c));
    ReachNext(p, [] + [Connect(c)], one, Connect(c));
    es, s := [] + [Connect(c)] + [Connect(c)], Step(p, one, Connect(c));
    assert s.clients == [c, c];
    CanvasesStale(p);
  }

  lemma StaleAfterSwitch(p: Panel, es: seq<Event>, s: State)
    requires ValidPanel(p) && p.width > 0 && p.height > 0 && p.width % p.align != 0
    requires Reachable(p, es, s) && s == Canvases(p) && ValidState(p, s)
    ensures VblankMisses(p, es + [Switch], Step(p, s, Switch))
  {
    hide Reachable, LeavesStale, Step;
    CanvasesStale(p);
    ReachNext(p, es, s, Switch);
  }

  lemma CanvasesStale(p: Panel)
    requires ValidPanel(p) && p.width > 0 && p.height > 0 && p.width % p.align != 0
    requires ValidState(p, Canvases(p))
    ensures !SwitchShows(p, Canvases(p))
    ensures var t := Step(p, Canvases(p), Switch); ValidState(p, t) && LeavesStale(p, t)
  {
    var s := Canvases(p);
    var c, d, t := Canvas(p), WholeOf(p.width, p.height), Step(p, s, Switch);
    ReportIsValid(p, c, d);
    assert t.clients[0] == Report(c, d) && t.clients[0].slots == [d] && t.primed && ValidState(p, t);
    hide Report;
    RefusedFlush(p, t);
    NothingDirty(p, c);
    Blank(p, t, s.fb);
    hide Step, InMemory, Flush;
    assert !ShowsFocused(p, t);
  }

  lemma RefusedFlush(p: Panel, t: State)
    requires ValidPanel(p) && p.width % p.align != 0 && ValidState(p, t) && t.clients != []
    requires t.clients[0].slots == [WholeOf(p.width, p.height)] && p.width > 0 && p.height > 0
    ensures InMemory(p, t) && Flush(p, t) == t
  {
    var c := t.clients[0];
    var g, d := Geo(p, c), c.slots[0];
    RefusedIff(g, d);
    CellFacts(p.align, p.width, 0, 0);
    LastCellReached(p.align, p.width);
    hide Misaligned, RowsInside;
    assert Misaligned(g, d);
    assert c.slots[..0] == [];
    assert CopySlots(t.fb, c.pixels, g, [d]) == (t.fb, false);
    assert t.clients[0 := c] == t.clients;
  }

  lemma LastCellReached(align: nat, width: nat)
    requires IsAlign(align) && width % align != 0
    ensures CellStart(align, width) <= width - 1
  {
  }

  lemma Blank(p: Panel, t: State, fb: seq<Byte>)
    requires ValidPanel(p) && p.width > 0 && p.height > 0 && ValidState(p, t) && t.clients != []
    requires t.fb == fb == seq(p.height * p.pitch, i => 0) && t.clients[0].pixels == Canvas(p).pixels
    requires t.clients[0].width == p.width && t.clients[0].height == p.height && t.clients[0].bytes == p.weight
    ensures InSprite(p, t.clients[0], 0, 0) && ScreenPixel(p, t, 0, 0) != SpritePixel(p, t.clients[0], 0, 0)
  {
    SpriteIsBacked(p, t.clients[0], 0, 0);
    assert ScreenPixel(p, t, 0, 0)[0] == 0 && SpritePixel(p, t.clients[0], 0, 0)[0] == 1;
  }

  /** A sprite of the screen's depth and of whole cells, with damage inside it. */
  predicate Tidy(p: Panel, c: Sprite)
    requires ValidPanel(p)
  {
    && c.bytes == p.weight && c.width % p.align == 0
    && forall i :: 0 <= i < |c.slots| ==> Accepted(c.width, c.height, c.slots[i])
  }

  predicate AllTidy(p: Panel, s: State)
    requires ValidPanel(p)
  {
    forall i :: 0 <= i < |s.clients| ==> Tidy(p, s.clients[i])
  }

  predicate TidyEvent(p: Panel, s: State, e: Event)
    requires ValidPanel(p)
  {
    match e
    case Connect(c) => Tidy(p, c)
    case Sync(i, d) => i < |s.clients| && Accepted(s.clients[i].width, s.clients[i].height, d)
    case _ => true
  }

  /** Slots of a tidy sprite are copied inside both buffers, and none is refused. */
  lemma TidyIsCopied(p: Panel, s: State, c: Sprite)
    requires ValidPanel(p) && ValidState(p, s) && ValidSprite(p, c) && Tidy(p, c) && p.width % p.align == 0
    ensures SlotsInMemory(p, |s.fb|, c) && NoneRefused(p, c)
  {
    forall i | 0 <= i < |c.slots|
      ensures CopyIsSafe(|s.fb|, |c.pixels|, Geo(p, c), c.slots[i]) && !Misaligned(Geo(p, c), c.slots[i])
    {
      InsideSpriteIsSafe(|s.fb|, |c.pixels|, Geo(p, c), c.slots[i], p.height, c.width, c.height);
    }
  }

  lemma ReportIsTidy(p: Panel, c: Sprite, d: Region)
    requires ValidPanel(p) && |c.slots| <= ClientRecord.DMG_SLOTS && Tidy(p, c) && Accepted(c.width, c.height, d)
    ensures Tidy(p, Report(c, d))
  {
    AccumulateCovers(c.slots, d, c.width, c.height);
  }

  lemma ResyncIsTidy(p: Panel, s: State)
    requires ValidPanel(p) && ValidState(p, s) && AllTidy(p, s)
    ensures AllTidy(p, Resync(p, s))
  {
    if s.clients != [] {
      var c := s.clients[0];
      ReportIsTidy(p, c, WholeOf(c.width, c.height));
    }
  }

  lemma DrawnIsTidy(p: Panel, c: Sprite, row: nat, col: nat, value: seq<Byte>)
    requires ValidPanel(p) && Tidy(p, c) && InSprite(p, c, row, col) && |value| == p.weight
    ensures Tidy(p, DrawPixel(p, c, row, col, value))
  {
  }

  lemma FlushedIsTidy(p: Panel, s: State)
    requires ValidPanel(p) && ValidState(p, s) && InMemory(p, s) && AllTidy(p, s)
    ensures AllTidy(p, Flush(p, s))
  {
    if s.clients != [] {
      FlushState(p, s);
    }
  }

  lemma TidyStepKeeps(p: Panel, s: State, e: Event)
    requires ValidPanel(p) && Inv(p, s) && Enabled(p, s, e) && AllTidy(p, s) && TidyEvent(p, s, e)
    ensures AllTidy(p, Step(p, s, e))
  {
    hide Tidy, Flush, DrawPixel, Report, Resync, Accepted, InMemory, Explained;
    match e
    case Connect(_) =>
    case Draw(i, row, col, value) => DrawnIsTidy(p, s.clients[i], row, col, value);
    case Sync(i, d) => ReportIsTidy(p, s.clients[i], d);
    case FullSync => ResyncIsTidy(p, s);
    case Switch =>
      if |s.clients| >= 2 {
        ResyncIsTidy(p, s.(clients := s.clients[1..] + [s.clients[0]]));
      }
    case Remove(i) => ResyncIsTidy(p, s.(clients := s.clients[..i] + s.clients[i + 1..]));
    case Vblank => FlushedIsTidy(p, s);
  }

  /** A run in which every event is tidy. */
  ghost predicate TidyRun(p: Panel, es: seq<Event>, s: State)
    requires ValidPanel(p)
  {
    if es == [] then
      |s.fb| >= p.height * p.pitch && s.clients == [] && !s.primed
    else
      exists r :: TidyRun(p, es[..|es| - 1], r) && ValidState(p, r)
                  && TidyEvent(p, r, es[|es| - 1]) && Enabled(p, r, es[|es| - 1]) && s == Step(p, r, es[|es| - 1])
  }

  /** On a screen of whole cells, tidy runs are runs in which every vblank stays in memory, copies
      every slot and empties them all. */
  lemma {:induction false} TidyRunsCopy(p: Panel, es: seq<Event>, s: State)
    requires ValidPanel(p) && p.width % p.align == 0 && TidyRun(p, es, s)
    ensures Reachable(p, es, s) && ValidState(p, s) && AllTidy(p, s)
    ensures forall i :: 0 <= i < |s.clients| ==> SlotsInMemory(p, |s.fb|, s.clients[i]) && NoneRefused(p, s.clients[i])
  {
    hide Enabled, TidyEvent;
    if es != [] {
      var r :| TidyRun(p, es[..|es| - 1], r) && ValidState(p, r)
               && TidyEvent(p, r, es[|es| - 1]) && Enabled(p, r, es[|es| - 1]) && s == Step(p, r, es[|es| - 1]);
      TidyRunsCopy(p, es[..|es| - 1], r);
      RunsAreExplained(p, es[..|es| - 1], r);
      TidyStepKeeps(p, r, es[|es| - 1]);
    }
    RunsAreExplained(p, es, s);
    forall i | 0 <= i < |s.clients|
      ensures SlotsInMemory(p, |s.fb|, s.clients[i]) && NoneRefused(p, s.clients[i])
    {
      TidyIsCopied(p, s, s.clients[i]);
    }
  }

  /** After a tidy run on a screen of whole cells, a screen switch and one vblank always show the new
      sprite. */
  lemma TidySwitchShows(p: Panel, es: seq<Event>, s: State)
    requires ValidPanel(p) && p.width % p.align == 0 && TidyRun(p, es, s) && |s.clients| >= 2
    ensures ValidState(p, s) && InMemory(p, Step(p, s, Switch)) && SwitchShows(p, s)
  {
    hide TidyRun, Reachable, Flush, ShowsFocused, Tidy, SlotsInMemory, NoneRefused;
    TidyRunsCopy(p, es, s);
    RunsAreExplained(p, es, s);
    SwitchReports(p, s);
    TidyStepKeeps(p, s, Switch);
    TidyIsCopied(p, Step(p, s, Switch), Step(p, s, Switch).clients[0]);
    hide Step, SwitchShows;
    SwitchThenVblank(p, es, s);
  }

  // ---------------------------------------------------------------------------------------
  // What each event does

  /** The sprites' memories in screen order. */
  function Memories(s: State): (m: seq<seq<Byte>>)
    ensures |m| == |s.clients|
  {
    seq(|s.clients|, i requires 0 <= i < |s.clients| => s.clients[i].pixels)
  }

  /** Who is shown in what order: a new sprite goes last, a removed one leaves the order of the others, a switch
      turns the list, and no other event moves a sprite; only drawing changes a memory, and only its own. */
  lemma OrderIs(p: Panel, s: State, e: Event)
    requires ValidPanel(p) && Inv(p, s) && Enabled(p, s, e)
    ensures var m, n := Memories(s), Memories(Step(p, s, e));
            match e
            case Connect(c) => n == m + [c.pixels]
            case Remove(i) => n == m[..i] + m[i + 1..]
            case Switch => n == Lists.Turn(m)
            case Draw(i, row, col, value) => n == m[i := n[i]] && |n[i]| == |m[i]|
            case _ => n == m
  {
    hide Report, Resync, Explained, DrawPixel, Flush;
    match e
    case Connect(c) =>
    case Draw(i, row, col, value) => DrawnMemories(p, s, i, row, col, value);
    case Sync(i, d) => SyncMemories(p, s, i, d);
    case FullSync => ResyncMemories(p, s);
    case Switch => TurnedMemories(p, s);
    case Remove(i) =>
      ResyncMemories(p, s.(clients := s.clients[..i] + s.clients[i + 1..]));
      RemovedMemories(s, i);
    case Vblank => FlushedMemories(p, s);
  }

  lemma DrawnMemories(p: Panel, s: State, i: nat, row: nat, col: nat, value: seq<Byte>)
    requires ValidPanel(p) && ValidState(p, s) && Enabled(p, s, Draw(i, row, col, value))
    ensures var m, n := Memories(s), Memories(Step(p, s, Draw(i, row, col, value)));
            |n| == |m| && n == m[i := n[i]] && |n[i]| == |m[i]|
  {
  }

  lemma SyncMemories(p: Panel, s: State, i: nat, d: Region)
    requires ValidPanel(p) && ValidState(p, s) && Enabled(p, s, Sync(i, d))
    ensures Memories(Step(p, s, Sync(i, d))) == Memories(s)
  {
    hide Accumulate, Covers;
  }

  lemma FlushedMemories(p: Panel, s: State)
    requires ValidPanel(p) && ValidState(p, s) && InMemory(p, s)
    ensures Memories(Flush(p, s)) == Memories(s)
  {
    if s.clients != [] {
      FlushState(p, s);
    }
  }

  lemma ResyncMemories(p: Panel, s: State)
    requires ValidPanel(p) && ValidState(p, s)
    ensures Memories(Resync(p, s)) == Memories(s)
  {
    hide Accumulate, Covers;
  }

  lemma RemovedMemories(s: State, i: nat)
    requires i < |s.clients|
    ensures Memories(s.(clients := s.clients[..i] + s.clients[i + 1..])) == Memories(s)[..i] + Memories(s)[i + 1..]
  {
  }

  lemma TurnedMemories(p: Panel, s: State)
    requires ValidPanel(p) && ValidState(p, s)
    ensures Memories(Step(p, s, Switch)) == Lists.Turn(Memories(s))
  {
    hide Resync;
    if |s.clients| >= 2 {
      ResyncMemories(p, s.(clients := s.clients[1..] + [s.clients[0]]));
    }
  }

  /** Drawing writes its pixel, and no other, into the sprite's memory. */
  lemma DrawIs(p: Panel, s: State, i: nat, row: nat, col: nat, value: seq<Byte>, r: nat, k: nat)
    requires ValidPanel(p) && Inv(p, s) && Enabled(p, s, Draw(i, row, col, value)) && InSprite(p, s.clients[i], r, k)
    ensures var c, d := s.clients[i], Step(p, s, Draw(i, row, col, value)).clients[i];
            && InSprite(p, d, r, k) && d.slots == c.slots
            && SpritePixel(p, d, r, k) == if (r, k) == (row, col) then value else SpritePixel(p, c, r, k)
  {
    var c := s.clients[i];
    if (r, k) != (row, col) {
      StoredPixel(c.pixels, p.weight, c.width, row, col, value, r, k);
    }
  }

  /** A report, of whichever client, keeps what was pending there and adds its rectangle; a full one adds the
      focused sprite whole. */
  lemma ReportPends(p: Panel, s: State, i: nat, d: Region, row: nat, col: nat)
    requires ValidPanel(p) && Inv(p, s) && i < |s.clients| && Accepted(p.width, p.height, d)
    ensures Covered(s.clients[i].slots, row, col) || Covers(d, row, col) ==>
              Covered(Step(p, s, Sync(i, d)).clients[i].slots, row, col)
    ensures Covered(s.clients[0].slots, row, col) || (row < s.clients[0].height && col < s.clients[0].width) ==>
              Covered(Step(p, s, FullSync).clients[0].slots, row, col)
  {
    ReportIsValid(p, s.clients[i], d);
    var c := s.clients[0];
    ReportIsValid(p, c, WholeOf(c.width, c.height));
    hide Report, Explained, Covered;
  }

  /** A vblank that refuses nothing empties the focused client's slots after copying them. */
  lemma VblankIs(p: Panel, s: State, row: nat, col: nat)
    requires ValidPanel(p) && Inv(p, s) && s.clients != [] && InMemory(p, s) && NoneRefused(p, s.clients[0])
    requires InSprite(p, s.clients[0], row, col) && Covered(s.clients[0].slots, row, col)
    ensures var t := Step(p, s, Vblank);
            && t.clients == s.clients[0 := s.clients[0].(slots := [])] && ValidState(p, t)
            && ScreenPixel(p, t, row, col) == SpritePixel(p, s.clients[0], row, col)
  {
    hide Covered, NoneRefused, InMemory, Explained;
    FlushState(p, s);
    FlushPixel(p, s, row, col);
  }

  /** From drawing to the screen: what the focused client draws and reports is on the screen after the next
      vblank that refuses nothing. */
  lemma DrawnIsShown(p: Panel, s: State, row: nat, col: nat, value: seq<Byte>, d: Region)
    requires ValidPanel(p) && Inv(p, s) && Enabled(p, s, Draw(0, row, col, value))
    requires Accepted(p.width, p.height, d) && Covers(d, row, col)
    ensures var a := Step(p, s, Draw(0, row, col, value));
            && ValidState(p, a) && a.clients != []
            && var b := Step(p, a, Sync(0, d));
               && ValidState(p, b) && b.clients != []
               && (InMemory(p, b) && NoneRefused(p, b.clients[0]) ==>
                     var t := Step(p, b, Vblank); ValidState(p, t) && ScreenPixel(p, t, row, col) == value)
  {
    hide Covered, Explained, Step, InMemory, NoneRefused, Accepted, Covers;
    StepKeeps(p, s, Draw(0, row, col, value));
    DrawIs(p, s, 0, row, col, value, row, col);
    var a := Step(p, s, Draw(0, row, col, value));
    OrderIs(p, s, Draw(0, row, col, value));
    StepKeeps(p, a, Sync(0, d));
    ReportPends(p, a, 0, d, row, col);
    SyncKeepsSprite(p, a, 0, d);
    var b := Step(p, a, Sync(0, d));
    if InMemory(p, b) && NoneRefused(p, b.clients[0]) {
      VblankIs(p, b, row, col);
    }
  }

  lemma SyncKeepsSprite(p: Panel, s: State, i: nat, d: Region)
    requires ValidPanel(p) && ValidState(p, s) && i < |s.clients| && Accepted(p.width, p.height, d)
    ensures var c, t := s.clients[i], Step(p, s, Sync(i, d)).clients;
            && |t| == |s.clients| && t[i] == c.(slots := t[i].slots, dirty := t[i].dirty)
            && forall k :: 0 <= k < |t| && k != i ==> t[k] == s.clients[k]
  {
  }
}
