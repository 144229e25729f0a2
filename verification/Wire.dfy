/** platform/linux/messages.c and the two dispatch loops (server.c, client.c): the byte stream.

    A message is a four-byte header, type then flag bits, followed by a payload whose length
    is a function of the type.  The reader takes at most 960 bytes in one system call; when
    exactly 960 bytes arrive the last message may be cut, and a second read completes it. */
module Wire {
  import opened Common

  const MAX_MSGLEN := 64
  const HEADER := 4
  const MAX_READ := 16 * MAX_MSGLEN - MAX_MSGLEN
  const MIN_READ := HEADER + 2
  const BUF_SIZE := MAX_READ + MAX_MSGLEN

  const SERVINFO := 100
  const REGISTER_SPRITE := 101
  const ACK := 104
  const SYNC := 105
  const INPUT := 106
  const INPUT_SURFACE := 107

  datatype Msg = Msg(typ: nat, bits: nat, data: seq<Byte>)

  /** Payload length of a message type: the sizes of the C structures with natural padding.
      `None` is the error value 0xffffffff, which every caller rejects. */
  function TypeLen(typ: nat): (r: Option<nat>)
    ensures r.Some? ==> r.value % 2 == 0 && MIN_READ <= HEADER + r.value <= MAX_MSGLEN
  {
    if typ == SERVINFO then Some(6)
    else if typ == REGISTER_SPRITE then Some(44)
    else if typ == ACK then Some(4)
    else if typ == SYNC then Some(8)
    else if typ == INPUT then Some(12)
    else if typ == INPUT_SURFACE then Some(28)
    else None
  }

  /** Consecutive members of a C structure: how many, and of what size and alignment. */
  datatype Field = Field(count: nat, size: nat, alignment: nat)

  const U8 := 1
  const U16 := 2
  const I32 := 4

  function Scalars(count: nat, size: nat): Field {
    Field(count, size, size)
  }

  /** `n` rounded up to a multiple of `alignment`. */
  function AlignUp(n: nat, alignment: nat): nat {
    if alignment == 0 || n % alignment == 0 then n else n + (alignment - n % alignment)
  }

  /** Where the last field ends: each starts at the next multiple of its alignment. */
  function EndOf(fields: seq<Field>): nat {
    if fields == [] then 0
    else
      var f := fields[|fields| - 1];
      AlignUp(EndOf(fields[..|fields| - 1]), f.alignment) + f.count * f.size
  }

  function AlignOf(fields: seq<Field>): nat {
    if fields == [] then 1 else Max(AlignOf(fields[..|fields| - 1]), fields[|fields| - 1].alignment)
  }

  function SizeOf(fields: seq<Field>): nat {
    AlignUp(EndOf(fields), AlignOf(fields))
  }

  /** The payload structures of spr16.h. */
  const ServInfoFields := [Scalars(3, U16)]
  const RegisterFields := [Scalars(32, U8), Scalars(1, I32), Scalars(3, U16)]
  const AckFields := [Scalars(2, U16)]
  const SyncFields := [Scalars(4, U16)]
  const InputFields := [Scalars(2, I32), Scalars(1, U16), Scalars(2, U8)]
  const SurfaceFields := [Field(1, 12, 4), Scalars(4, I32)]

  /** The lengths are the sizes of the structures, with natural padding; an input message is what a
      surface message begins with. */
  lemma LengthsAreSizes()
    ensures TypeLen(SERVINFO) == Some(SizeOf(ServInfoFields))
    ensures TypeLen(REGISTER_SPRITE) == Some(SizeOf(RegisterFields))
    ensures TypeLen(ACK) == Some(SizeOf(AckFields)) && TypeLen(SYNC) == Some(SizeOf(SyncFields))
    ensures TypeLen(INPUT) == Some(SizeOf(InputFields)) && TypeLen(INPUT_SURFACE) == Some(SizeOf(SurfaceFields))
    ensures SurfaceFields[0] == Field(1, SizeOf(InputFields), AlignOf(InputFields))
    ensures forall typ: nat :: typ !in {SERVINFO, REGISTER_SPRITE, ACK, SYNC, INPUT, INPUT_SURFACE} ==> TypeLen(typ).None?
  {
    OneField(ServInfoFields[0]);
    OneField(AckFields[0]);
    OneField(SyncFields[0]);
    TwoFields(SurfaceFields[0], SurfaceFields[1]);
    ThreeFields(RegisterFields[0], RegisterFields[1], RegisterFields[2]);
    ThreeFields(InputFields[0], InputFields[1], InputFields[2]);
    hide SizeOf, AlignOf;
  }

  lemma OneField(a: Field)
    ensures EndOf([a]) == AlignUp(0, a.alignment) + a.count * a.size && AlignOf([a]) == Max(1, a.alignment)
    ensures SizeOf([a]) == AlignUp(EndOf([a]), AlignOf([a]))
  {
    assert [a][..0] == [];
  }

  lemma TwoFields(a: Field, b: Field)
    ensures EndOf([a, b]) == AlignUp(AlignUp(0, a.alignment) + a.count * a.size, b.alignment) + b.count * b.size
    ensures AlignOf([a, b]) == Max(Max(1, a.alignment), b.alignment)
    ensures SizeOf([a, b]) == AlignUp(EndOf([a, b]), AlignOf([a, b]))
  {
    OneField(a);
    assert [a, b][..1] == [a];
  }

  lemma ThreeFields(a: Field, b: Field, c: Field)
    ensures EndOf([a, b, c]) == AlignUp(EndOf([a, b]), c.alignment) + c.count * c.size
    ensures EndOf([a, b]) == AlignUp(AlignUp(0, a.alignment) + a.count * a.size, b.alignment) + b.count * b.size
    ensures AlignOf([a, b, c]) == Max(Max(Max(1, a.alignment), b.alignment), c.alignment)
    ensures SizeOf([a, b, c]) == AlignUp(EndOf([a, b, c]), AlignOf([a, b, c]))
  {
    TwoFields(a, b);
    assert [a, b, c][..2] == [a, b];
  }

  predicate Valid(m: Msg) {
    && m.typ < U16_RANGE && m.bits < U16_RANGE
    && TypeLen(m.typ) == Some(|m.data|)
  }

  predicate AllValid(ms: seq<Msg>) {
    forall i :: 0 <= i < |ms| ==> Valid(ms[i])
  }

  function LittleEndian(lo: int, hi: int): int {
    lo + 256 * hi
  }

  /** Little-endian halfword at `pos`. */
  function Half(b: seq<Byte>, pos: nat): (r: nat)
    requires pos + 2 <= |b|
    ensures r < U16_RANGE
  {
    LittleEndian(b[pos], b[pos + 1])
  }

  /** What `spr16_write_msg` puts on the socket. */
  function Encode(m: Msg): (b: seq<Byte>)
    requires Valid(m)
    ensures |b| == HEADER + |m.data| && |b| % 2 == 0 && MIN_READ <= |b| <= MAX_MSGLEN
  {
    [m.typ % 256, m.typ / 256, m.bits % 256, m.bits / 256] + m.data
  }

  function EncodeAll(ms: seq<Msg>): (b: seq<Byte>)
    requires AllValid(ms)
  {
    if ms == [] then [] else Encode(ms[0]) + EncodeAll(ms[1..])
  }

  /** The message whose header starts at `pos`, when its type is known and it ends inside `b`. */
  function MsgAt(b: seq<Byte>, pos: nat): (m: Option<Msg>)
    requires pos + HEADER <= |b|
    ensures m.Some? ==> Valid(m.value) && pos + HEADER + |m.value.data| <= |b|
  {
    var len := TypeLen(Half(b, pos));
    if len.None? || pos + HEADER + len.value > |b| then
      None
    else
      Some(Msg(Half(b, pos), Half(b, pos + 2), b[pos + HEADER..pos + HEADER + len.value]))
  }

  lemma MsgAtSpells(b: seq<Byte>, pos: nat)
    requires pos + HEADER <= |b| && MsgAt(b, pos).Some?
    ensures var m := MsgAt(b, pos).value;
            b[pos..pos + HEADER + |m.data|] == Encode(m)
  {
    var m := MsgAt(b, pos).value;
    HalfwordBytes(b[pos], b[pos + 1]);
    HalfwordBytes(b[pos + 2], b[pos + 3]);
    assert b[pos..pos + HEADER + |m.data|] == b[pos..pos + HEADER] + b[pos + HEADER..pos + HEADER + |m.data|];
  }

  lemma HalfwordBytes(lo: Byte, hi: Byte)
    ensures LittleEndian(lo, hi) % 256 == lo && LittleEndian(lo, hi) / 256 == hi
  {
  }

  /** Decoding of a byte string that must consist of whole messages. */
  function Decode(b: seq<Byte>): (r: Option<seq<Msg>>)
    ensures r.Some? ==> AllValid(r.value) && EncodeAll(r.value) == b
  {
    if b == [] then Some([])
    else if |b| < HEADER || MsgAt(b, 0).None? then None
    else
      var m := MsgAt(b, 0).value;
      var rest := Decode(b[|Encode(m)|..]);
      if rest.None? then None
      else
        MsgAtSpells(b, 0);
        assert b == Encode(m) + b[|Encode(m)|..];
        assert ([m] + rest.value)[1..] == rest.value;
        Some([m] + rest.value)
  }

  /** A whole message at `pos` is read back as it was written. */
  lemma MsgAtEncoded(pre: seq<Byte>, m: Msg, post: seq<Byte>)
    requires Valid(m)
    ensures MsgAt(pre + Encode(m) + post, |pre|) == Some(m)
  {
    var b := pre + Encode(m) + post;
    assert forall k :: 0 <= k < |Encode(m)| ==> b[|pre| + k] == Encode(m)[k];
    assert Half(b, |pre|) == m.typ;
    assert Half(b, |pre| + 2) == m.bits;
    assert b[|pre| + HEADER..|pre| + HEADER + |m.data|] == m.data;
  }

  /** Round trip: no stream of whole messages has two readings. */
  lemma {:induction false} DecodeEncodeAll(ms: seq<Msg>)
    requires AllValid(ms)
    ensures Decode(EncodeAll(ms)) == Some(ms)
  {
    if ms != [] {
      var b := EncodeAll(ms);
      MsgAtEncoded([], ms[0], EncodeAll(ms[1..]));
      assert [] + Encode(ms[0]) + EncodeAll(ms[1..]) == b;
      assert b[|Encode(ms[0])|..] == EncodeAll(ms[1..]);
      DecodeEncodeAll(ms[1..]);
      assert ms == [ms[0]] + ms[1..];
    }
  }

  lemma {:induction false} EncodeAllLength(ms: seq<Msg>)
    requires AllValid(ms)
    ensures |EncodeAll(ms)| % 2 == 0 && |EncodeAll(ms)| >= |ms|
    ensures ms != [] ==> |EncodeAll(ms)| >= MIN_READ
  {
    if ms != [] {
      EncodeAllLength(ms[1..]);
    }
  }

  lemma {:induction false} EncodeAllAppend(a: seq<Msg>, b: seq<Msg>)
    requires AllValid(a) && AllValid(b)
    ensures AllValid(a + b) && EncodeAll(a + b) == EncodeAll(a) + EncodeAll(b)
  {
    hide Valid, Encode;
    if a == [] {
      assert a + b == b;
    } else {
      EncodeAllAppend(a[1..], b);
      assert (a + b)[1..] == a[1..] + b;
    }
  }

  lemma EncodeAllOne(m: Msg)
    requires Valid(m)
    ensures EncodeAll([m]) == Encode(m)
  {
    assert EncodeAll([m]) == Encode(m) + EncodeAll([]);
  }

  lemma EncodeAllNext(ms: seq<Msg>, j: nat)
    requires AllValid(ms) && j < |ms|
    ensures EncodeAll(ms[..j + 1]) == EncodeAll(ms[..j]) + Encode(ms[j])
  {
    hide Valid, Encode;
    EncodeAllOne(ms[j]);
    EncodeAllAppend(ms[..j], [ms[j]]);
    assert ms[..j] + [ms[j]] == ms[..j + 1];
  }

  /** A stream around its message `j`. */
  lemma EncodeAllSplit(ms: seq<Msg>, j: nat)
    requires AllValid(ms) && j < |ms|
    ensures EncodeAll(ms) == EncodeAll(ms[..j]) + Encode(ms[j]) + EncodeAll(ms[j + 1..])
    ensures EncodeAll(ms[..j + 1]) == EncodeAll(ms[..j]) + Encode(ms[j])
  {
    hide Valid, Encode, EncodeAll;
    EncodeAllNext(ms, j);
    EncodeAllAppend(ms[..j + 1], ms[j + 1..]);
    assert ms == ms[..j + 1] + ms[j + 1..];
  }

  // ---------------------------------------------------------------------------------------
  // The socket

  /** A stream socket: a write is whole, a read takes what is there up to the size asked. */
  class Socket {
    var bytes: seq<Byte>
    var open: bool

    constructor ()
      ensures bytes == [] && open
    {
      bytes, open := [], true;
    }

    /** `read(2)`: -1 (EAGAIN) on an empty open socket, 0 at end of file. */
    method Read(buf: array<Byte>, at: nat, count: nat) returns (r: int)
      requires at + count <= buf.Length && count > 0
      modifies this`bytes, buf
      ensures r == if old(bytes) != [] then Min(count, |old(bytes)|) else if open then -1 else 0
      ensures bytes == old(bytes)[Max(r, 0)..]
      ensures buf[..at] == old(buf[..at])
      ensures buf[at..at + Max(r, 0)] == old(bytes)[..Max(r, 0)]
      ensures buf[at + Max(r, 0)..] == old(buf[at + Max(r, 0)..])
    {
      if bytes == [] {
        return if open then -1 else 0;
      }
      r := Min(count, |bytes|);
      forall k | 0 <= k < r {
        buf[at + k] := bytes[k];
      }
      bytes := bytes[r..];
    }
  }

  // ---------------------------------------------------------------------------------------
  // Reading: spr16_reassemble_fragment and spr16_read_msgs

  /** End position of the last message that starts in the first 960 bytes, and its length. */
  datatype Scan = Scan(end: nat, last: nat)

  /** The scan of `spr16_reassemble_fragment` from `pos`; `None` is its EPROTO exit. */
  function ScanFrom(b: seq<Byte>, pos: nat, last: nat): (r: Option<Scan>)
    requires |b| == MAX_READ
    requires pos % 2 == 0 && last % 2 == 0
    requires pos < MAX_READ || (pos - MAX_READ < last <= MAX_MSGLEN && last <= pos)
    ensures r.Some? ==>
              && MAX_READ <= r.value.end < BUF_SIZE && r.value.end % 2 == 0
              && r.value.end - MAX_READ < r.value.last <= MAX_MSGLEN && r.value.last % 2 == 0
    decreases BUF_SIZE - pos
  {
    if pos >= MAX_READ then Some(Scan(pos, last))
    else
      var len := TypeLen(Half(b, pos));
      if len.None? then None
      else ScanFrom(b, pos + HEADER + len.value, HEADER + len.value)
  }

  /** The two outcomes of `spr16_read_msgs`: the buffer handed to dispatch, or NULL.
      `rest` is what stays in the socket. */
  datatype ReadResult =
    | Got(chunk: seq<Byte>, rest: seq<Byte>)
    | Failed(rest: seq<Byte>)

  function ReadSpec(q: seq<Byte>): (r: ReadResult)
    ensures r.Got? ==> r.chunk + r.rest == q && MIN_READ <= |r.chunk| < BUF_SIZE
  {
    if |q| < MAX_READ then
      if |q| < MIN_READ then Failed([]) else Got(q, [])
    else
      var head, tail := q[..MAX_READ], q[MAX_READ..];
      var scan := ScanFrom(head, 0, 0);
      if scan.None? then Failed(tail)
      else
        var missing := scan.value.end - MAX_READ;
        if |tail| < missing then Failed([])
        else
          assert q[..scan.value.end] + q[scan.value.end..] == q;
          assert tail[missing..] == q[scan.value.end..];
          Got(q[..scan.value.end], q[scan.value.end..])
  }

  /** The scan loop: finds the message that crosses, or ends at, byte 960. */
  method FindFragment(g: array<Byte>) returns (ok: bool, rdpos: nat, msglen: nat)
    requires g.Length == BUF_SIZE
    ensures ScanFrom(g[..MAX_READ], 0, 0) == if ok then Some(Scan(rdpos, msglen)) else None
  {
    hide ScanFrom, TypeLen;
    ghost var head := g[..MAX_READ];
    rdpos, msglen := 0, 0;
    while rdpos < MAX_READ
      invariant rdpos % 2 == 0 && msglen % 2 == 0
      invariant rdpos < MAX_READ || (rdpos - MAX_READ < msglen <= MAX_MSGLEN && msglen <= rdpos)
      invariant ScanFrom(head, rdpos, msglen) == ScanFrom(head, 0, 0)
      decreases BUF_SIZE - rdpos
    {
      assert head[rdpos] == g[rdpos] && head[rdpos + 1] == g[rdpos + 1];
      ScanNext(head, rdpos, msglen);
      var typelen := TypeLen(LittleEndian(g[rdpos], g[rdpos + 1]));
      if typelen.None? {
        return false, 0, 0;
      }
      msglen := HEADER + typelen.value;
      rdpos := rdpos + msglen;
    }
    ScanDone(head, rdpos, msglen);
    ok := true;
  }

  lemma ScanNext(b: seq<Byte>, pos: nat, last: nat)
    requires |b| == MAX_READ && pos < MAX_READ && pos % 2 == 0 && last % 2 == 0
    ensures var len := TypeLen(Half(b, pos));
            ScanFrom(b, pos, last) == if len.None? then None else ScanFrom(b, pos + HEADER + len.value, HEADER + len.value)
  {
  }

  lemma ScanDone(b: seq<Byte>, pos: nat, last: nat)
    requires |b| == MAX_READ && pos >= MAX_READ && pos % 2 == 0 && last % 2 == 0
    requires pos - MAX_READ < last <= MAX_MSGLEN && last <= pos
    ensures ScanFrom(b, pos, last) == Some(Scan(pos, last))
  {
  }

  /** Completes a cut message with a second read.  Returns the number of buffered bytes, or a
      value <= 0 for the error exits. */
  method ReassembleFragment(s: Socket, g: array<Byte>) returns (r: int)
    requires g.Length == BUF_SIZE
    modifies s`bytes, g
    ensures var scan := ScanFrom(old(g[..MAX_READ]), 0, 0);
            if scan.Some? && scan.value.end - MAX_READ <= |old(s.bytes)| then
              var missing := scan.value.end - MAX_READ;
              && r == scan.value.end
              && s.bytes == old(s.bytes)[missing..]
              && g[..MAX_READ] == old(g[..MAX_READ])
              && g[MAX_READ..r] == old(s.bytes)[..missing]
            else
              r <= 0 && s.bytes == (if scan.Some? then [] else old(s.bytes))
  {
    var ok, rdpos, msglen := FindFragment(g);
    if !ok {
      return -1;
    }
    var fragbytes := msglen - (rdpos - MAX_READ);
    if fragbytes == msglen {
      return MAX_READ;
    } else if fragbytes < 2 {
      return -1;
    }
    var bytesleft := msglen - fragbytes;
    if bytesleft <= 0 || bytesleft + fragbytes > MAX_MSGLEN {
      return -1;
    }
    r := s.Read(g, MAX_READ, bytesleft);
    if r != bytesleft {
      return -1;
    }
    return MAX_READ + r;
  }

  method ReadMsgs(s: Socket, g: array<Byte>) returns (len: int)
    requires g.Length == BUF_SIZE
    modifies s`bytes, g
    ensures match ReadSpec(old(s.bytes))
            case Got(chunk, rest) => len == |chunk| && g[..len] == chunk && s.bytes == rest
            case Failed(rest) => len == -1 && s.bytes == rest
  {
    ghost var q := s.bytes;
    var r := s.Read(g, 0, MAX_READ);
    if r == -1 {
      return -1;
    }
    assert g[..r] == g[0..r] == q[..r];
    if r == MAX_READ {
      r := ReassembleFragment(s, g);
      if r <= 0 {
        return -1;
      }
      JoinSlices(g[..r], q, MAX_READ, r);
    }
    if r > BUF_SIZE || r < MIN_READ {
      return -1;
    }
    return r;
  }

  lemma JoinSlices(b: seq<Byte>, q: seq<Byte>, cut: nat, end: nat)
    requires cut <= end == |b| <= |q|
    requires b[..cut] == q[..cut]
    requires b[cut..] == q[cut..][..end - cut]
    ensures b == q[..end] && q[cut..][end - cut..] == q[end..]
  {
    assert b == b[..cut] + b[cut..];
    assert q[..end] == q[..cut] + q[cut..][..end - cut];
  }
}
