/** platform/linux/input.c: the bitmap of keys held down on one input device.

    The build is for a 32-bit machine, so an `unsigned long` has 32 bits. */
module Keys {
  import opened Common

  const LONG_BITS := 32
  const KEYCODE_COUNT := 324
  const LONGS := (KEYCODE_COUNT + LONG_BITS - 1) / LONG_BITS

  // ---------------------------------------------------------------------------------------
  // Specification: the set of keys that are down

  datatype Event = Key(code: int, val: int) | Flush

  /** Whether a key event is forwarded. */
  predicate Accepted(down: set<nat>, e: Event) {
    e.Key? && 0 <= e.code < KEYCODE_COUNT && (e.val == 1 || ((e.val == 0 || e.val == 2) && e.code in down))
  }

  function After(down: set<nat>, e: Event): set<nat> {
    if e.Flush? then {}
    else if !Accepted(down, e) then down
    else if e.val == 0 then down - {e.code}
    else down + {e.code}
  }

  function Run(es: seq<Event>): set<nat> {
    if es == [] then {} else After(Run(es[..|es| - 1]), es[|es| - 1])
  }

  /** The events forwarded since the last flush. */
  function Forwarded(es: seq<Event>): (f: seq<Event>)
    ensures forall i :: 0 <= i < |f| ==> f[i].Key? && f[i].val in {0, 1, 2}
  {
    if es == [] then []
    else
      var before, e := Forwarded(es[..|es| - 1]), es[|es| - 1];
      if e.Flush? then [] else if Accepted(Run(es[..|es| - 1]), e) then before + [e] else before
  }

  /** The state of key `k` that its last event in `f` left: down after a press or a repeat. */
  predicate LastLeftDown(f: seq<Event>, k: nat)
    requires forall i :: 0 <= i < |f| ==> f[i].Key?
  {
    if f == [] then false
    else if f[|f| - 1].code == k then f[|f| - 1].val != 0
    else LastLeftDown(f[..|f| - 1], k)
  }

  /** A key is down if and only if the last event forwarded for it was a press or a repeat: the server's
      bitmap is what a client that follows the forwarded events knows. */
  lemma {:induction false} DownIffLastForwarded(es: seq<Event>, k: nat)
    ensures k in Run(es) <==> LastLeftDown(Forwarded(es), k)
  {
    if es != [] {
      var rest, e := es[..|es| - 1], es[|es| - 1];
      DownIffLastForwarded(rest, k);
      if Accepted(Run(rest), e) {
        assert (Forwarded(rest) + [e])[..|Forwarded(rest)|] == Forwarded(rest);
      }
    }
  }

  /** What is forwarded, told from the events forwarded before: a press always, a release or a repeat
      exactly when the last event forwarded for the key left it down; nothing else, and a flush
      starts afresh. */
  lemma ForwardedIff(rest: seq<Event>, c: int, v: int)
    ensures Forwarded(rest + [Flush]) == []
    ensures Forwarded(rest + [Key(c, v)])
         == if 0 <= c < KEYCODE_COUNT && (v == 1 || (v in {0, 2} && LastLeftDown(Forwarded(rest), c)))
            then Forwarded(rest) + [Key(c, v)]
            else Forwarded(rest)
  {
    assert (rest + [Flush])[..|rest|] == rest;
    assert (rest + [Key(c, v)])[..|rest|] == rest;
    if c >= 0 {
      DownIffLastForwarded(rest, c);
    }
  }

  /** Every forwarded release or repeat concerns a key that the events forwarded before it left
      down: no key is released twice, or released without having been pressed. */
  lemma {:induction false} ReleasesFollowPresses(es: seq<Event>, i: nat)
    requires i < |Forwarded(es)| && Forwarded(es)[i].val != 1
    ensures Forwarded(es)[i].code >= 0 && LastLeftDown(Forwarded(es)[..i], Forwarded(es)[i].code)
  {
    var rest, e := es[..|es| - 1], es[|es| - 1];
    var f, was := Forwarded(es), Forwarded(rest);
    if i < |was| {
      ReleasesFollowPresses(rest, i);
      assert f[..i] == was[..i];
    } else {
      assert f[..i] == was;
      DownIffLastForwarded(rest, e.code);
    }
  }

  lemma {:induction false} OnlyKeycodes(es: seq<Event>, k: nat)
    requires k in Run(es)
    ensures k < KEYCODE_COUNT
  {
    var rest, e := es[..|es| - 1], es[|es| - 1];
    if k in Run(rest) {
      OnlyKeycodes(rest, k);
    }
  }

  // ---------------------------------------------------------------------------------------
  // Bits

  /** `1LU << n`. */
  function Mask(n: nat): bv32
    requires n < LONG_BITS
  {
    1 << n
  }

  function And(a: bv32, b: bv32): bv32 {
    a & b
  }

  function Not(a: bv32): bv32 {
    !a
  }

  /** `w` and `m` have a bit in common. */
  predicate Meets(w: bv32, m: bv32) {
    And(w, m) != 0
  }

  /** `w |= m` and `w &= ~m`. */
  function Or(w: bv32, m: bv32): bv32 {
    w | m
  }

  function AndNot(w: bv32, m: bv32): bv32 {
    And(w, Not(m))
  }

  /** Bit `k` of the array. */
  predicate Bit(longs: seq<bv32>, k: nat)
    requires k < LONG_BITS * |longs|
  {
    Meets(longs[k / LONG_BITS], Mask(k % LONG_BITS))
  }

  predicate Apart(m: bv32, n: bv32) {
    And(m, n) == 0
  }

  lemma MaskNotZero(i: nat)
    requires i < LONG_BITS
    ensures Mask(i) != 0
  {
  }

  lemma MasksApart(i: nat, j: nat)
    requires i < LONG_BITS && j < LONG_BITS && i != j
    ensures Apart(Mask(i), Mask(j))
  {
  }

  lemma SameMask(w: bv32, m: bv32)
    requires m != 0
    ensures Meets(Or(w, m), m) && !Meets(AndNot(w, m), m)
  {
  }

  lemma OrOther(w: bv32, m: bv32, n: bv32)
    requires Apart(m, n)
    ensures Meets(Or(w, m), n) == Meets(w, n)
  {
  }

  lemma NotApart(m: bv32, n: bv32)
    requires And(m, n) == 0
    ensures And(Not(m), n) == n
  {
  }

  lemma AndAssociates(a: bv32, b: bv32, c: bv32)
    ensures And(And(a, b), c) == And(a, And(b, c))
  {
  }

  lemma AndNotOther(w: bv32, m: bv32, n: bv32)
    requires Apart(m, n)
    ensures Meets(AndNot(w, m), n) == Meets(w, n)
  {
    hide And, Not;
    NotApart(m, n);
    AndAssociates(w, Not(m), n);
  }

  lemma SameIndex(k: nat, bit: nat)
    ensures k == bit <==> k / LONG_BITS == bit / LONG_BITS && k % LONG_BITS == bit % LONG_BITS
  {
  }

  /** Setting or clearing one bit of one long leaves every other bit of the array alone. */
  lemma OneBit(longs: seq<bv32>, bit: nat, k: nat)
    requires bit < LONG_BITS * |longs| && k < LONG_BITS * |longs|
    ensures var i, m := bit / LONG_BITS, Mask(bit % LONG_BITS);
            && (Bit(longs[i := Or(longs[i], m)], k) <==> k == bit || Bit(longs, k))
            && (Bit(longs[i := AndNot(longs[i], m)], k) <==> k != bit && Bit(longs, k))
  {
    hide Mask, Meets, Or, AndNot, Apart;
    SameIndex(k, bit);
    var w, i, j := longs[bit / LONG_BITS], bit % LONG_BITS, k % LONG_BITS;
    MaskNotZero(i);
    if i == j {
      SameMask(w, Mask(i));
    } else {
      MasksApart(i, j);
      OrOther(w, Mask(i), Mask(j));
      AndNotOther(w, Mask(i), Mask(j));
    }
  }

  // ---------------------------------------------------------------------------------------
  // The device

  class Device {
    const btnDown: array<bv32>

    /** calloc. */
    constructor ()
      ensures Valid() && fresh(btnDown) && Down() == {}
    {
      btnDown := new bv32[LONGS](_ => 0);
    }

    ghost predicate Valid() {
      btnDown.Length == LONGS
    }

    /** The keys whose bit is set. */
    ghost function Down(): set<nat>
      requires Valid()
      reads btnDown
    {
      set k: nat | k < LONG_BITS * LONGS && Bit(btnDown[..], k)
    }

    method BitSet(bit: nat)
      requires Valid() && bit < LONG_BITS * LONGS
      modifies btnDown
      ensures Down() == old(Down()) + {bit}
    {
      hide Bit, Or, Mask;
      ghost var was := btnDown[..];
      btnDown[bit / LONG_BITS] := Or(btnDown[bit / LONG_BITS], Mask(bit % LONG_BITS));
      forall k: nat | k < LONG_BITS * LONGS
        ensures Bit(btnDown[..], k) <==> k == bit || Bit(was, k)
      {
        OneBit(was, bit, k);
      }
    }

    method BitClear(bit: nat)
      requires Valid() && bit < LONG_BITS * LONGS
      modifies btnDown
      ensures Down() == old(Down()) - {bit}
    {
      hide Bit, AndNot, Mask;
      ghost var was := btnDown[..];
      btnDown[bit / LONG_BITS] := AndNot(btnDown[bit / LONG_BITS], Mask(bit % LONG_BITS));
      forall k: nat | k < LONG_BITS * LONGS
        ensures Bit(btnDown[..], k) <==> k != bit && Bit(was, k)
      {
        OneBit(was, bit, k);
      }
    }

    method BitCheck(bit: nat, bitCount: nat) returns (r: bool)
      requires Valid() && bitCount <= LONG_BITS * LONGS
      ensures r <==> bit < bitCount && bit in Down()
    {
      if bit >= bitCount {
        return false;
      }
      r := Meets(btnDown[bit / LONG_BITS], Mask(bit % LONG_BITS));
    }

    /** The keycode is converted to an unsigned 32-bit number on the way. */
    method BtnIsDown(keycode: int) returns (r: bool)
      requires Valid() && -U32_RANGE / 2 <= keycode < U32_RANGE / 2
      ensures r <==> 0 <= keycode < KEYCODE_COUNT && keycode in Down()
    {
      r := BitCheck(ToU32(keycode), KEYCODE_COUNT);
    }

    /** `set_input_msg`; `ok` says that the event is to be forwarded, and `msgCode` is the code the
        message then carries. */
    method SetInputMsg(msgCode: int, val: int, code: int) returns (ok: bool, newCode: int)
      requires Valid() && -U32_RANGE / 2 <= code < U32_RANGE / 2
      modifies btnDown
      ensures Down() == After(old(Down()), Key(code, val))
      ensures ok <==> Accepted(old(Down()), Key(code, val))
      ensures newCode == if 0 <= code < KEYCODE_COUNT then code else msgCode
    {
      if code < 0 || code >= KEYCODE_COUNT {
        return false, msgCode;
      }
      newCode := code;
      ok := true;
      if val == 0 {
        ok := BtnIsDown(code);
        if ok {
          BitClear(code);
        }
      } else if val == 1 {
        BitSet(code);
      } else if val == 2 {
        ok := BtnIsDown(code);
      } else {
        ok := false;
      }
    }

    /** The reset of one device in `input_flush_all_devices`. */
    method Reset()
      requires Valid()
      modifies btnDown
      ensures Down() == After(old(Down()), Flush)
    {
      for i := 0 to LONGS
        invariant forall k :: 0 <= k < i ==> btnDown[k] == 0
      {
        btnDown[i] := 0;
      }
    }
  }

  /** Any series of key events and flushes on a new device leaves exactly the keys of `Run` down. */
  method Play(es: seq<Event>) returns (d: Device, forwarded: seq<Event>)
    requires forall i :: 0 <= i < |es| && es[i].Key? ==> -U32_RANGE / 2 <= es[i].code < U32_RANGE / 2
    ensures d.Valid() && d.Down() == Run(es) && forwarded == Forwarded(es)
  {
    d := new Device();
    forwarded := [];
    for i := 0 to |es|
      invariant d.Valid() && fresh(d.btnDown) && d.Down() == Run(es[..i]) && forwarded == Forwarded(es[..i])
    {
      assert es[..i + 1][..i] == es[..i];
      match es[i]
      case Key(code, val) =>
        var ok, _ := d.SetInputMsg(code, val, code);
        if ok {
          forwarded := forwarded + [es[i]];
        }
      case Flush =>
        d.Reset();
        forwarded := [];
    }
    assert es[..|es|] == es;
  }
}
