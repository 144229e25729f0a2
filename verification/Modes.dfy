/** platform/linux/drm.c: the choice of a display mode (get_mode_idx). */
module Modes {
  import opened Common
  import opened Blit
  import opened BlitExact

  /** The fields of `struct drm_mode_modeinfo` the choice looks at. */
  datatype Mode = Mode(width: nat, height: nat, refresh: nat)

  /** Zero asks for no limit. */
  function Limit(requested: nat): nat {
    if requested == 0 then 0xffff else requested
  }

  predicate Usable(m: Mode, width: nat, height: nat) {
    m.width <= Limit(width) && m.height <= Limit(height) && m.width % 16 == 0
  }

  predicate UsableAt(modes: seq<Mode>, i: int, width: nat, height: nat) {
    0 <= i < |modes| && Usable(modes[i], width, height)
  }

  /** How far a refresh rate is from the requested one. */
  function Distance(refresh: nat, m: Mode): nat {
    if refresh < m.refresh then m.refresh - refresh else refresh - m.refresh
  }

  predicate AtLeast(m: Mode, n: Mode) {
    m.width >= n.width && m.height >= n.height
  }

  predicate SameSize(m: Mode, n: Mode) {
    m.width == n.width && m.height == n.height
  }

  /** Mode `i` is at least as wide and as high as every usable mode. */
  ghost predicate Largest(modes: seq<Mode>, i: int, width: nat, height: nat) {
    UsableAt(modes, i, width, height)
    && forall k :: UsableAt(modes, k, width, height) ==> AtLeast(modes[i], modes[k])
  }

  /** Mode `i` replaces the choice `pick`. */
  predicate Replaces(modes: seq<Mode>, pick: int, i: int, refresh: nat)
    requires 0 <= i < |modes| && pick < |modes|
  {
    || pick < 0
    || modes[i].width > modes[pick].width
    || modes[i].height > modes[pick].height
    || (SameSize(modes[i], modes[pick]) && Distance(refresh, modes[i]) < Distance(refresh, modes[pick]))
  }

  /** The loop of `get_mode_idx` over the first `n` modes. */
  function Pick(modes: seq<Mode>, n: nat, width: nat, height: nat, refresh: nat): (pick: int)
    requires n <= |modes|
    ensures -1 <= pick < n
    ensures pick >= 0 ==> Usable(modes[pick], width, height)
    ensures pick < 0 ==> forall k :: 0 <= k < n ==> !Usable(modes[k], width, height)
  {
    if n == 0 then -1
    else
      var pick := Pick(modes, n - 1, width, height, refresh);
      if Usable(modes[n - 1], width, height) && Replaces(modes, pick, n - 1, refresh) then n - 1 else pick
  }

  /** `get_mode_idx`: -1 exactly when no mode fits; otherwise a mode that fits the request and whose
      width is a multiple of 16. */
  method GetModeIdx(modes: seq<Mode>, width: nat, height: nat, refresh: nat) returns (pick: int)
    requires |modes| < U16_RANGE && width < U16_RANGE && height < U16_RANGE && refresh < U16_RANGE
    requires forall i :: 0 <= i < |modes| ==> modes[i].refresh < U32_RANGE / 2
    requires forall i :: 0 <= i < |modes| ==> modes[i].width < U16_RANGE && modes[i].height < U16_RANGE
    ensures -1 <= pick < |modes|
    ensures pick == -1 <==> forall k :: 0 <= k < |modes| ==> !Offers(modes[k], width, height)
    ensures pick != -1 ==> Offers(modes[pick], width, height)
    ensures pick == Pick(modes, |modes|, width, height, refresh)
  {
    hide ToS32, Abs, Distance;
    var w, h := width, height;
    if w == 0 {
      w := 0xffff;
    }
    if h == 0 {
      h := 0xffff;
    }
    pick := -1;
    for i := 0 to |modes|
      invariant pick == Pick(modes, i, width, height, refresh)
    {
      var m := modes[i];
      if m.width > w || m.height > h {
        continue;
      }
      if m.width % 16 == 0 {
        if pick < 0 {
          pick := i;
          continue;
        }
        var p := modes[pick];
        if m.width > p.width {
          pick := i;
        } else if m.height > p.height {
          pick := i;
        } else if m.width == p.width && m.height == p.height {
          Unwrapped(refresh, m);
          Unwrapped(refresh, p);
          if Abs(ToS32(ToU32(refresh - m.refresh))) < Abs(ToS32(ToU32(refresh - p.refresh))) {
            pick := i;
          }
        }
      }
    }
    assert forall k :: 0 <= k < |modes| ==> (Usable(modes[k], width, height) <==> Offers(modes[k], width, height));
  }

  /** The mode is no larger than what is requested, where zero requests nothing, and its width is a multiple
      of 16. */
  predicate Offers(m: Mode, width: nat, height: nat) {
    && (width == 0 || m.width <= width) && (height == 0 || m.height <= height)
    && m.width % 16 == 0
  }

  /** The conversion of an unsigned 32-bit number to `int`. */
  function ToS32(x: nat): int
    requires x < U32_RANGE
  {
    if x < U32_RANGE / 2 then x else x - U32_RANGE
  }

  function Abs(x: int): nat {
    if x < 0 then -x else x
  }

  /** The wrapped difference is the distance. */
  lemma Unwrapped(refresh: nat, m: Mode)
    requires refresh < U16_RANGE && m.refresh < U32_RANGE / 2
    ensures Abs(ToS32(ToU32(refresh - m.refresh))) == Distance(refresh, m)
  {
    if refresh < m.refresh {
      assert refresh - m.refresh + U32_RANGE == ToU32(refresh - m.refresh);
    }
  }

  /** The choice after `n` modes is as good as any of them, in size and then in refresh rate. */
  predicate Best(modes: seq<Mode>, n: nat, pick: int, width: nat, height: nat, refresh: nat)
    requires n <= |modes|
  {
    && 0 <= pick < n && Usable(modes[pick], width, height)
    && forall k :: 0 <= k < n && Usable(modes[k], width, height) ==>
         && AtLeast(modes[pick], modes[k])
         && (SameSize(modes[k], modes[pick]) ==>
               && Distance(refresh, modes[pick]) <= Distance(refresh, modes[k])
               && (k < pick ==> Distance(refresh, modes[pick]) < Distance(refresh, modes[k])))
  }

  /** One more mode after a best choice that covers every usable mode. */
  lemma BestNext(modes: seq<Mode>, n: nat, width: nat, height: nat, refresh: nat)
    requires 0 < n <= |modes|
    requires var pick := Pick(modes, n - 1, width, height, refresh);
             Best(modes, n - 1, pick, width, height, refresh) && Largest(modes, pick, width, height)
    ensures var pick := Pick(modes, n, width, height, refresh);
            Best(modes, n, pick, width, height, refresh) && Largest(modes, pick, width, height)
  {
    if Usable(modes[n - 1], width, height) {
      assert UsableAt(modes, n - 1, width, height);
    }
  }

  /** The first largest mode is chosen when it is reached. */
  lemma FirstLargest(modes: seq<Mode>, i: nat, width: nat, height: nat, refresh: nat)
    requires i < |modes| && Largest(modes, i, width, height)
    requires forall k :: 0 <= k < i ==> !Largest(modes, k, width, height)
    ensures Pick(modes, i + 1, width, height, refresh) == i
    ensures Best(modes, i + 1, i, width, height, refresh)
  {
    forall k | 0 <= k < i && Usable(modes[k], width, height)
      ensures AtLeast(modes[i], modes[k]) && !AtLeast(modes[k], modes[i])
    {
      assert UsableAt(modes, k, width, height);
      if AtLeast(modes[k], modes[i]) {
        assert forall m :: UsableAt(modes, m, width, height) ==> AtLeast(modes[k], modes[m]);
        assert Largest(modes, k, width, height);
      }
    }
  }

  lemma {:induction false} PickFromLargest(modes: seq<Mode>, n: nat, i: nat, width: nat, height: nat, refresh: nat)
    requires i < n <= |modes| && Largest(modes, i, width, height)
    ensures var pick := Pick(modes, n, width, height, refresh);
            Best(modes, n, pick, width, height, refresh) && Largest(modes, pick, width, height)
    decreases n
  {
    if k :| 0 <= k < n - 1 && Largest(modes, k, width, height) {
      PickFromLargest(modes, n - 1, k, width, height, refresh);
      BestNext(modes, n, width, height, refresh);
    } else {
      assert i == n - 1;
      FirstLargest(modes, i, width, height, refresh);
    }
  }

  /** The choice covers every usable mode if and only if some usable mode does; it is then the first of
      the largest modes whose refresh rate is closest to the requested one. */
  lemma LargestIsChosenIff(modes: seq<Mode>, width: nat, height: nat, refresh: nat)
    ensures var pick := Pick(modes, |modes|, width, height, refresh);
            && (Largest(modes, pick, width, height) <==> exists i :: Largest(modes, i, width, height))
            && (Largest(modes, pick, width, height) ==> Best(modes, |modes|, pick, width, height, refresh))
  {
    if i :| Largest(modes, i, width, height) {
      PickFromLargest(modes, |modes|, i, width, height, refresh);
    }
  }

  /** Mode `i` beats mode `k`: wider, or higher, or of the same size and closer in refresh rate. */
  predicate Beats(modes: seq<Mode>, i: int, k: int, refresh: nat)
    requires 0 <= i < |modes| && 0 <= k < |modes|
  {
    !AtLeast(modes[k], modes[i])
    || (SameSize(modes[i], modes[k]) && Distance(refresh, modes[i]) < Distance(refresh, modes[k]))
  }

  /** What is chosen, whatever the list: the usable mode that beats the choice among those before it, and that
      no usable mode after it beats; there is exactly one. */
  lemma {:induction false} ChosenIff(modes: seq<Mode>, n: nat, i: nat, width: nat, height: nat, refresh: nat)
    requires i < n <= |modes|
    ensures Pick(modes, n, width, height, refresh) == i
            <==> && Usable(modes[i], width, height)
                 && (var was := Pick(modes, i, width, height, refresh); was >= 0 ==> Beats(modes, i, was, refresh))
                 && forall k :: i < k < n && Usable(modes[k], width, height) ==> !Beats(modes, k, i, refresh)
    decreases n
  {
    if i < n - 1 {
      ChosenIff(modes, n - 1, i, width, height, refresh);
    }
  }

  /** No usable mode after the choice is wider or higher, or as large and closer in refresh rate. */
  lemma NothingBetterFollows(modes: seq<Mode>, k: nat, width: nat, height: nat, refresh: nat)
    requires k < |modes| && Usable(modes[k], width, height)
    ensures var pick := Pick(modes, |modes|, width, height, refresh);
            && pick >= 0
            && (k > pick ==> AtLeast(modes[pick], modes[k])
                             && (SameSize(modes[k], modes[pick]) ==>
                                   Distance(refresh, modes[pick]) <= Distance(refresh, modes[k])))
  {
    var pick := Pick(modes, |modes|, width, height, refresh);
    if pick >= 0 {
      ChosenIff(modes, |modes|, pick, width, height, refresh);
    }
  }

  /** Otherwise the choice depends on the order of the list: a narrower mode can replace a wider one. */
  lemma OrderMatters()
    ensures var wide, tall := Mode(1920, 1080, 60), Mode(1600, 1200, 60);
            && Pick([wide, tall], 2, 0, 0, 60) == 1
            && Pick([tall, wide], 2, 0, 0, 60) == 1
  {
  }

  /** With 16-pixel blocks `copy_to_fb` refuses no rectangle on a screen in the chosen mode. */
  lemma ChosenModeCopies(modes: seq<Mode>, width: nat, height: nat, refresh: nat, g: Geometry, d: Region)
    requires var pick := Pick(modes, |modes|, width, height, refresh);
             pick >= 0 && g.width == modes[pick].width
    requires ValidGeometry(g) && NarrowRows(g) && g.align == 16 && d.xmin <= d.xmax < g.width
    ensures !Misaligned(g, d)
  {
    RefusedIff(g, d);
  }

  /** With 32-pixel blocks a chosen mode may be unusable: 1360 is a multiple of 16 only, and a rectangle
      that reaches the right edge is refused. */
  lemma ChosenModeMayRefuse(g: Geometry, d: Region)
    requires g == Geometry(32, 4, 1360, g.pitch, g.stride) && d.xmin <= d.xmax == 1359
    ensures Pick([Mode(1360, 768, 60)], 1, 0, 0, 60) == 0
    ensures ValidGeometry(g) && Misaligned(g, d)
  {
    HalfCellModesRefuseFullWidth(g, d);
  }
}
