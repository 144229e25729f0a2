/** platform/linux/server.c (accumulate_dmg, the checks of spr16_server_sync) and
    platform/linux/fb.c (sync_dmg_to_fb): which rectangles of a sprite await a copy. */
module Damage {
  import opened Common
  import opened Blit
  import opened BlitExact
  import opened ClientRecord

  predicate Covers(d: Region, row: nat, col: nat) {
    d.xmin <= col <= d.xmax && d.ymin <= row <= d.ymax
  }

  predicate Covered(slots: seq<Region>, row: nat, col: nat) {
    exists i :: 0 <= i < |slots| && Covers(slots[i], row, col)
  }

  predicate Ordered(d: Region) {
    d.xmin <= d.xmax && d.ymin <= d.ymax
  }

  /** The check of `spr16_server_sync`: on the screen, and ordered. */
  predicate Accepted(width: nat, height: nat, d: Region) {
    d.xmax < width && d.ymax < height && d.xmin < width && d.ymin < height && Ordered(d)
  }

  /** Bounding box. */
  function Join(a: Region, b: Region): Region {
    Region(Min(b.xmin, a.xmin), Min(b.ymin, a.ymin), Max(a.xmax, b.xmax), Max(a.ymax, b.ymax))
  }

  function Accumulate(slots: seq<Region>, d: Region): (r: seq<Region>)
    requires |slots| <= DMG_SLOTS
    ensures |r| <= DMG_SLOTS
  {
    if |slots| < DMG_SLOTS then slots + [d]
    else slots[DMG_SLOTS - 1 := Join(slots[DMG_SLOTS - 1], d)]
  }

  method AccumulateDmg(cl: Client, d: Region)
    requires cl.SlotsValid()
    modifies cl`dmgCount, cl.dmg
    ensures cl.SlotsValid()
    ensures cl.Slots() == Accumulate(old(cl.Slots()), d)
  {
    var lastIdx := DMG_SLOTS - 1;
    if cl.dmgCount < DMG_SLOTS {
      cl.dmg[cl.dmgCount] := d;
      cl.dmgCount := cl.dmgCount + 1;
    } else {
      var was := cl.dmg[lastIdx];
      if d.xmin < was.xmin {
        cl.dmg[lastIdx] := cl.dmg[lastIdx].(xmin := d.xmin);
      }
      if d.ymin < was.ymin {
        cl.dmg[lastIdx] := cl.dmg[lastIdx].(ymin := d.ymin);
      }
      if d.xmax > was.xmax {
        cl.dmg[lastIdx] := cl.dmg[lastIdx].(xmax := d.xmax);
      }
      if d.ymax > was.ymax {
        cl.dmg[lastIdx] := cl.dmg[lastIdx].(ymax := d.ymax);
      }
    }
  }

  /** The slots after a series of syncs since the last flush. */
  function AccumulateAll(ds: seq<Region>): (r: seq<Region>)
    ensures |r| <= DMG_SLOTS
  {
    if ds == [] then [] else Accumulate(AccumulateAll(ds[..|ds| - 1]), ds[|ds| - 1])
  }

  function Hull(ds: seq<Region>): Region
    requires ds != []
  {
    if |ds| == 1 then ds[0] else Join(Hull(ds[..|ds| - 1]), ds[|ds| - 1])
  }

  /** What the slots hold after any series of syncs: the first 31 rectangles as they came, and in
      the last slot the bounding box of all the others. */
  lemma {:induction false} SlotsAre(ds: seq<Region>)
    ensures AccumulateAll(ds) == if |ds| <= DMG_SLOTS then ds
                                 else ds[..DMG_SLOTS - 1] + [Hull(ds[DMG_SLOTS - 1..])]
  {
    if ds != [] {
      var rest := ds[..|ds| - 1];
      SlotsAre(rest);
      if |ds| > DMG_SLOTS {
        var head, tail := ds[..DMG_SLOTS - 1], ds[DMG_SLOTS - 1..];
        assert rest[..DMG_SLOTS - 1] == head && rest[DMG_SLOTS - 1..] == tail[..|tail| - 1];
        if |rest| == DMG_SLOTS {
          assert rest == head + [rest[DMG_SLOTS - 1]];
        }
        OneMore(head, Hull(tail[..|tail| - 1]), tail[|tail| - 1]);
      } else {
        assert rest + [ds[|ds| - 1]] == ds;
      }
    }
  }

  /** A further sync when all slots are taken. */
  lemma OneMore(head: seq<Region>, hull: Region, d: Region)
    requires |head| == DMG_SLOTS - 1
    ensures Accumulate(head + [hull], d) == head + [Join(hull, d)]
  {
  }

  lemma {:induction false} HullBounds(ds: seq<Region>, i: nat, width: nat, height: nat)
    requires i < |ds|
    requires forall k :: 0 <= k < |ds| ==> Accepted(width, height, ds[k])
    ensures Accepted(width, height, Hull(ds))
    ensures forall row: nat, col: nat :: Covers(ds[i], row, col) ==> Covers(Hull(ds), row, col)
  {
    if |ds| > 1 {
      HullBounds(ds[..|ds| - 1], Min(i, |ds| - 2), width, height);
    }
  }

  /** `a` encloses `b`. */
  predicate Encloses(a: Region, b: Region) {
    a.xmin <= b.xmin && a.ymin <= b.ymin && b.xmax <= a.xmax && b.ymax <= a.ymax
  }

  /** The hull is the bounding box: it encloses every rectangle, and every region that does encloses it. */
  lemma {:induction false} HullIsLeast(ds: seq<Region>, r: Region)
    requires ds != []
    ensures Encloses(r, Hull(ds)) <==> forall k :: 0 <= k < |ds| ==> Encloses(r, ds[k])
  {
    if |ds| > 1 {
      var rest := ds[..|ds| - 1];
      HullIsLeast(rest, r);
      assert forall k :: 0 <= k < |rest| ==> rest[k] == ds[k];
      if Encloses(r, Hull(ds)) {
        assert Encloses(r, Hull(rest)) && Encloses(r, ds[|ds| - 1]);
      }
    }
  }

  /** Each bound of the hull is that of one of the rectangles. */
  lemma {:induction false} HullIsAttained(ds: seq<Region>)
    requires ds != []
    ensures var h := Hull(ds);
            && (exists k :: 0 <= k < |ds| && ds[k].xmin == h.xmin)
            && (exists k :: 0 <= k < |ds| && ds[k].ymin == h.ymin)
            && (exists k :: 0 <= k < |ds| && ds[k].xmax == h.xmax)
            && (exists k :: 0 <= k < |ds| && ds[k].ymax == h.ymax)
  {
    if |ds| == 1 {
      assert ds[0] == Hull(ds);
    } else {
      var rest := ds[..|ds| - 1];
      HullIsAttained(rest);
      assert forall k :: 0 <= k < |rest| ==> rest[k] == ds[k];
      var last := |ds| - 1;
      assert ds[last] == ds[|ds| - 1];
    }
  }

  /** The check in pixels: the rectangle has some, and they are all on the screen. */
  lemma AcceptedIff(width: nat, height: nat, d: Region)
    ensures Accepted(width, height, d)
            <==> && (exists row: nat, col: nat :: Covers(d, row, col))
                 && (forall row: nat, col: nat :: Covers(d, row, col) ==> row < height && col < width)
  {
    if Ordered(d) {
      assert Covers(d, d.ymin, d.xmin) && Covers(d, d.ymax, d.xmax);
    }
  }

  /** Damage cover: after any series of accepted syncs every slot is itself acceptable, and every
      requested pixel lies in some slot. */
  lemma DamageIsCovered(ds: seq<Region>, width: nat, height: nat, i: nat, row: nat, col: nat)
    requires forall k :: 0 <= k < |ds| ==> Accepted(width, height, ds[k])
    requires i < |ds| && Covers(ds[i], row, col)
    ensures var slots := AccumulateAll(ds);
            && Covered(slots, row, col)
            && forall k :: 0 <= k < |slots| ==> Accepted(width, height, slots[k])
  {
    SlotsAre(ds);
    var slots := AccumulateAll(ds);
    if |ds| > DMG_SLOTS {
      var tail := ds[DMG_SLOTS - 1..];
      HullBounds(tail, Max(i - (DMG_SLOTS - 1), 0), width, height);
      if i >= DMG_SLOTS - 1 {
        assert tail[i - (DMG_SLOTS - 1)] == ds[i];
        assert Covers(slots[DMG_SLOTS - 1], row, col);
      } else {
        assert slots[i] == ds[i];
      }
    }
  }

  /** One more sync never uncovers a pixel, covers its own rectangle, and keeps slots acceptable. */
  lemma AccumulateCovers(slots: seq<Region>, d: Region, width: nat, height: nat)
    requires |slots| <= DMG_SLOTS && Accepted(width, height, d)
    requires forall k :: 0 <= k < |slots| ==> Accepted(width, height, slots[k])
    ensures var t := Accumulate(slots, d);
            && (forall k :: 0 <= k < |t| ==> Accepted(width, height, t[k]))
            && (forall row: nat, col: nat :: Covered(slots, row, col) || Covers(d, row, col) ==> Covered(t, row, col))
  {
    var t := Accumulate(slots, d);
    forall row: nat, col: nat | Covered(slots, row, col) || Covers(d, row, col)
      ensures Covered(t, row, col)
    {
      if Covers(d, row, col) {
        assert Covers(t[|t| - 1], row, col);
      } else {
        var i :| 0 <= i < |slots| && Covers(slots[i], row, col);
        assert Covers(t[i], row, col);
      }
    }
  }

  /** The server's check does not protect the sprite: on a 640 by 480 screen a client that registered 32 by
      32 pixels may report a rectangle on the last screen row; it is accepted and not refused, and
      its copy stays in the framebuffer but reads beyond the sprite's memory. */
  lemma AcceptedOutsideSprite(g: Geometry, d: Region)
    requires g == Geometry(32, 4, 640, 2560, 128) && d == Region(0, 479, 31, 479)
    ensures Accepted(g.width, 480, d) && ValidGeometry(g) && NarrowRows(g) && !Misaligned(g, d)
    ensures CopyIsSafe(480 * g.pitch, 480 * g.stride, g, d) && !CopyIsSafe(480 * g.pitch, 32 * g.stride, g, d)
  {
    hide CopyIsSafe, SpanOf, Misaligned;
    RefusedIff(g, d);
    StaysInsideSpriteIff(g, d, 480 * g.pitch, 480 * g.stride, 480);
    StaysInsideSpriteIff(g, d, 480 * g.pitch, 32 * g.stride, 480);
  }

  // ---------------------------------------------------------------------------------------
  // Flushing

  /** The copies of `sync_dmg_to_fb`, in slot order; the flag is false when one was refused. */
  function CopySlots(fb: seq<Byte>, sp: seq<Byte>, g: Geometry, slots: seq<Region>): (r: (seq<Byte>, bool))
    requires ValidGeometry(g)
    requires forall i :: 0 <= i < |slots| ==> CopyIsSafe(|fb|, |sp|, g, slots[i])
    ensures |r.0| == |fb|
  {
    if slots == [] then (fb, true)
    else
      var (f, ok) := CopySlots(fb, sp, g, slots[..|slots| - 1]);
      var d := slots[|slots| - 1];
      if !ok || Misaligned(g, d) then (f, false) else (CopyToFbSpec(f, sp, g, d).value, true)
  }

  /** `sync_dmg_to_fb`: when every copy succeeds the slots are emptied; when one is refused the slots
      stay, the copies before it having been made. */
  method SyncDmgToFb(fb: array<Byte>, cl: Client, g: Geometry) returns (ok: bool)
    requires cl.SlotsValid() && cl.pixels != null && fb != cl.pixels && ValidGeometry(g)
    requires forall i :: 0 <= i < |cl.Slots()| ==> RegionFitsU16(cl.Slots()[i])
    requires forall i :: 0 <= i < |cl.Slots()| ==> CopyIsSafe(fb.Length, cl.pixels.Length, g, cl.Slots()[i])
    modifies fb, cl`dmgCount, cl.dmg
    ensures cl.SlotsValid()
    ensures if cl.direct then
              ok && fb[..] == old(fb[..]) && cl.Slots() == old(cl.Slots())
            else
              && (fb[..], ok) == CopySlots(old(fb[..]), cl.pixels[..], g, old(cl.Slots()))
              && cl.Slots() == (if ok then [] else old(cl.Slots()))
  {
    if cl.direct {
      return true;
    }
    assert forall i :: 0 <= i < cl.dmgCount ==> cl.Slots()[i] == cl.dmg[i];
    ok := CopyEach(fb, cl.pixels, cl.dmg, cl.dmgCount, g);
    if ok {
      ClearSlots(cl);
    }
  }

  method ClearSlots(cl: Client)
    requires cl.SlotsValid()
    modifies cl`dmgCount, cl.dmg
    ensures cl.SlotsValid() && cl.Slots() == []
  {
    for i := 0 to DMG_SLOTS {
      cl.dmg[i] := Region(0, 0, 0, 0);
    }
    cl.dmgCount := 0;
  }

  /** The loop of `sync_dmg_to_fb`. */
  method CopyEach(fb: array<Byte>, sp: array<Byte>, dmg: array<Region>, count: nat, g: Geometry) returns (ok: bool)
    requires fb != sp && ValidGeometry(g) && count <= dmg.Length
    requires forall i :: 0 <= i < count ==> RegionFitsU16(dmg[i]) && CopyIsSafe(fb.Length, sp.Length, g, dmg[i])
    modifies fb
    ensures (fb[..], ok) == CopySlots(old(fb[..]), sp[..], g, dmg[..count])
  {
    hide Misaligned, RowsInside, CopyRows, SpanOf, Grid;
    ghost var was, slots := fb[..], dmg[..count];
    for i := 0 to count
      invariant (fb[..], true) == CopySlots(was, sp[..], g, slots[..i])
    {
      assert slots[..i + 1][..i] == slots[..i];
      ok := CopyToFb(fb, sp, g, dmg[i]);
      if !ok {
        CopySlotsStuck(was, sp[..], g, slots, i + 1);
        return;
      }
    }
    assert slots[..count] == slots;
    ok := true;
  }

  lemma {:induction false} CopySlotsStuck(fb: seq<Byte>, sp: seq<Byte>, g: Geometry, slots: seq<Region>, n: nat)
    requires ValidGeometry(g) && n <= |slots|
    requires forall i :: 0 <= i < |slots| ==> CopyIsSafe(|fb|, |sp|, g, slots[i])
    requires !CopySlots(fb, sp, g, slots[..n]).1
    ensures CopySlots(fb, sp, g, slots) == CopySlots(fb, sp, g, slots[..n])
    decreases |slots|
  {
    if n < |slots| {
      assert slots[..|slots| - 1][..n] == slots[..n];
      CopySlotsStuck(fb, sp, g, slots[..|slots| - 1], n);
    } else {
      assert slots[..n] == slots;
    }
  }
}
