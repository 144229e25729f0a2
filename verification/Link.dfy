/** Dispatch of a read buffer (server.c, client.c) and whole runs of one direction of a connection.

    The handlers of both programs are sequential, so what a handler answers is a function of the
    messages it has been given so far: `handler(h)` is the verdict on the last message of `h`.
    A type that the receiving program does not dispatch is a message its handler refuses. */
module Link {
  import opened Common
  import opened Wire

  type Handler = seq<Msg> -> bool

  datatype Outcome = Outcome(log: seq<Msg>, ok: bool)

  /** The dispatch loop from `pos`; `log` holds the messages dispatched before. */
  function DispatchFrom(b: seq<Byte>, pos: nat, log: seq<Msg>, handler: Handler): Outcome
    requires pos <= |b|
    decreases |b| - pos
  {
    if pos + HEADER >= |b| then Outcome(log, true)
    else
      var m := MsgAt(b, pos);
      if m.None? then Outcome(log, false)
      else if !handler(log + [m.value]) then Outcome(log + [m.value], false)
      else DispatchFrom(b, pos + HEADER + |m.value.data|, log + [m.value], handler)
  }

  /** Handing over messages one by one until one is refused: what dispatch is for. */
  function Feed(ms: seq<Msg>, log: seq<Msg>, handler: Handler): Outcome {
    if ms == [] then Outcome(log, true)
    else if !handler(log + [ms[0]]) then Outcome(log + [ms[0]], false)
    else Feed(ms[1..], log + [ms[0]], handler)
  }

  lemma {:induction false} FeedLog(ms: seq<Msg>, log: seq<Msg>, handler: Handler)
    ensures var o := Feed(ms, log, handler);
            && |log| <= |o.log| <= |log| + |ms| && o.log == log + ms[..|o.log| - |log|]
            && (o.ok ==> o.log == log + ms)
            && (!o.ok ==> |o.log| > |log| && !handler(o.log))
            && (ms != [] ==> |o.log| > |log|)
  {
    if ms != [] && handler(log + [ms[0]]) {
      FeedLog(ms[1..], log + [ms[0]], handler);
      var n := |Feed(ms, log, handler).log| - |log|;
      assert [ms[0]] + ms[1..][..n - 1] == ms[..n];
      assert [ms[0]] + ms[1..] == ms;
    }
  }

  /** On a buffer of whole messages the dispatch loop is `Feed`. */
  lemma {:induction false} DispatchEncoded(pre: seq<Byte>, ms: seq<Msg>, log: seq<Msg>, handler: Handler)
    requires AllValid(ms)
    ensures DispatchFrom(pre + EncodeAll(ms), |pre|, log, handler) == Feed(ms, log, handler)
    decreases |ms|
  {
    hide Encode, MsgAt, Valid;
    var b := pre + EncodeAll(ms);
    if ms != [] {
      EncodeAllLength(ms);
      MsgAtEncoded(pre, ms[0], EncodeAll(ms[1..]));
      assert b == pre + Encode(ms[0]) + EncodeAll(ms[1..]);
      if handler(log + [ms[0]]) {
        DispatchEncoded(pre + Encode(ms[0]), ms[1..], log + [ms[0]], handler);
      }
    }
  }

  /** The bytes of `b` from `pos` to `end` are the encoding of `given`. */
  ghost predicate Spells(b: seq<Byte>, pos: nat, end: nat, given: seq<Msg>)
    requires pos <= |b|
  {
    AllValid(given) && pos <= end <= |b| && EncodeAll(given) == b[pos..end]
  }

  lemma SpellsCons(b: seq<Byte>, pos: nat, mid: nat, end: nat, m: Msg, rest: seq<Msg>)
    requires pos <= mid <= |b| && Valid(m) && Encode(m) == b[pos..mid]
    requires Spells(b, mid, end, rest)
    ensures Spells(b, pos, end, [m] + rest)
  {
    assert ([m] + rest)[1..] == rest;
    assert b[pos..end] == b[pos..mid] + b[mid..end];
  }

  lemma NothingSpelled(b: seq<Byte>, pos: nat)
    requires pos <= |b|
    ensures Spells(b, pos, pos, [])
  {
  }

  /** Dispatch of arbitrary bytes: the messages handed over are exactly the leading bytes of the
      buffer; a successful pass leaves at most four bytes unread; a failing one ends either at
      a message the handler refused or at bytes that hold no whole message of a known type. */
  lemma {:induction false} DispatchAnyBytes(b: seq<Byte>, pos: nat, log: seq<Msg>, handler: Handler)
    returns (given: seq<Msg>, end: nat)
    requires pos <= |b|
    ensures Spells(b, pos, end, given)
    ensures var o := DispatchFrom(b, pos, log, handler);
            && o.log == log + given
            && (if o.ok then |b| - end <= HEADER
                else || (given != [] && !handler(o.log))
                     || (end + HEADER < |b| && MsgAt(b, end).None?))
    decreases |b| - pos
  {
    hide Encode, MsgAt, EncodeAll;
    given, end := [], pos;
    NothingSpelled(b, pos);
    if pos + HEADER < |b| && MsgAt(b, pos).Some? {
      var m := MsgAt(b, pos).value;
      MsgAtSpells(b, pos);
      var mid := pos + |Encode(m)|;
      end := mid;
      if handler(log + [m]) {
        given, end := DispatchAnyBytes(b, mid, log + [m], handler);
        assert log + ([m] + given) == log + [m] + given;
      } else {
        NothingSpelled(b, mid);
      }
      SpellsCons(b, pos, mid, end, m, given);
      given := [m] + given;
    }
  }

  method Dispatch(g: array<Byte>, buflen: nat, log: seq<Msg>, handler: Handler) returns (o: Outcome)
    requires buflen <= g.Length
    ensures o == DispatchFrom(g[..buflen], 0, log, handler)
  {
    ghost var b := g[..buflen];
    var rdpos := 0;
    var done := log;
    while rdpos + HEADER < buflen
      invariant rdpos <= buflen
      invariant DispatchFrom(b, rdpos, done, handler) == DispatchFrom(b, 0, log, handler)
      decreases buflen - rdpos
    {
      assert b[rdpos..rdpos + HEADER] == g[rdpos..rdpos + HEADER];
      assert b[rdpos] == g[rdpos] && b[rdpos + 1] == g[rdpos + 1];
      assert b[rdpos + 2] == g[rdpos + 2] && b[rdpos + 3] == g[rdpos + 3];
      var typ := LittleEndian(g[rdpos], g[rdpos + 1]);
      var typelen := TypeLen(typ);
      if typelen.None? || rdpos + HEADER + typelen.value > buflen {
        return Outcome(done, false);
      }
      var bits := LittleEndian(g[rdpos + 2], g[rdpos + 3]);
      var end := rdpos + HEADER + typelen.value;
      assert b[rdpos + HEADER..end] == g[rdpos + HEADER..end];
      done := done + [Msg(typ, bits, g[rdpos + HEADER..end])];
      if !handler(done) {
        return Outcome(done, false);
      }
      rdpos := end;
    }
    return Outcome(done, true);
  }

  // ---------------------------------------------------------------------------------------
  // Reading a stream of whole messages

  /** Message `j` of a stream lies between the encodings of the first `j` and `j + 1` messages. */
  lemma StreamAt(ms: seq<Msg>, j: nat)
    requires AllValid(ms) && j < |ms|
    ensures var pos := |EncodeAll(ms[..j])|;
            && |EncodeAll(ms[..j + 1])| == pos + HEADER + |ms[j].data| <= |EncodeAll(ms)|
            && Half(EncodeAll(ms), pos) == ms[j].typ
  {
    EncodeAllSplit(ms, j);
    hide EncodeAll, Encode;
    MsgAtEncoded(EncodeAll(ms[..j]), ms[j], EncodeAll(ms[j + 1..]));
  }

  lemma EncodeNone()
    ensures EncodeAll([]) == []
  {
  }

  lemma NonEmptyStream(ms: seq<Msg>)
    requires AllValid(ms) && |EncodeAll(ms)| > 0
    ensures ms != []
  {
  }

  /** The scan of a full buffer ends on a message boundary. */
  lemma {:induction false} ScanEncoded(ms: seq<Msg>, head: seq<Byte>, j: nat, last: nat) returns (k: nat)
    requires AllValid(ms) && j <= |ms|
    requires |EncodeAll(ms)| >= MAX_READ && head == EncodeAll(ms)[..MAX_READ]
    requires var pos := |EncodeAll(ms[..j])|;
             && pos % 2 == 0 && last % 2 == 0
             && (pos < MAX_READ || (pos - MAX_READ < last <= MAX_MSGLEN && last <= pos))
    ensures 0 < k <= |ms|
    ensures var scan := ScanFrom(head, |EncodeAll(ms[..j])|, last);
            scan.Some? && scan.value.end == |EncodeAll(ms[..k])|
    decreases |ms| - j
  {
    hide EncodeAll, ScanFrom;
    var pos := |EncodeAll(ms[..j])|;
    if j == |ms| {
      assert ms[..j] == ms;
    }
    if pos >= MAX_READ {
      ScanDone(head, pos, last);
      NonEmptyStream(ms[..j]);
      k := j;
    } else {
      StreamAt(ms, j);
      assert Half(head, pos) == Half(EncodeAll(ms), pos);
      ScanNext(head, pos, last);
      k := ScanEncoded(ms, head, j + 1, HEADER + |ms[j].data|);
    }
  }

  /** Framing is never lost: a read of a stream of whole messages takes a non-empty run of whole
      messages, and leaves whole messages, wherever the 960-byte cut falls; it takes all there is
      below 960 bytes, and otherwise up to the end of the message the cut falls in. */
  lemma ReadTakesWholeMessages(ms: seq<Msg>) returns (k: nat)
    requires AllValid(ms) && ms != []
    ensures 0 < k <= |ms|
    ensures ReadSpec(EncodeAll(ms)) == Got(EncodeAll(ms[..k]), EncodeAll(ms[k..]))
    ensures if |EncodeAll(ms)| < MAX_READ then k == |ms| else MAX_READ <= |EncodeAll(ms[..k])| < BUF_SIZE
  {
    hide EncodeAll, ScanFrom;
    EncodeAllLength(ms);
    if |EncodeAll(ms)| < MAX_READ {
      k := |ms|;
      assert ms[..k] == ms && ms[k..] == [];
      EncodeNone();
    } else {
      NonEmptyStream(ms);
      assert ms[..0] == [];
      EncodeNone();
      k := ScanEncoded(ms, EncodeAll(ms)[..MAX_READ], 0, 0);
      EncodeAllAppend(ms[..k], ms[k..]);
      assert ms == ms[..k] + ms[k..];
    }
  }

  // ---------------------------------------------------------------------------------------
  // Runs

  /** One direction of a connection.  `written` is what the writer sent, `handled` what the
      reader's handler was given, `queue` the bytes in the socket. */
  datatype State = State(written: seq<Msg>, queue: seq<Byte>, handled: seq<Msg>, alive: bool)

  datatype Event = Write(m: Msg) | Poll

  function Step(s: State, e: Event, handler: Handler): State {
    if !s.alive then s
    else match e
      case Write(m) =>
        if Valid(m) then s.(written := s.written + [m], queue := s.queue + Encode(m)) else s
      case Poll =>
        if s.queue == [] then s
        else match ReadSpec(s.queue)
          case Failed(rest) => s.(queue := rest, alive := false)
          case Got(chunk, rest) =>
            var o := DispatchFrom(chunk, 0, s.handled, handler);
            s.(queue := rest, handled := o.log, alive := o.ok)
  }

  const Fresh := State([], [], [], true)

  function Run(es: seq<Event>, handler: Handler): State {
    if es == [] then Fresh else Step(Run(es[..|es| - 1], handler), es[|es| - 1], handler)
  }

  /** While the connection lives, dispatched messages followed by the decoding of the queued bytes
      are the messages written; it dies only when the handler refuses a message. */
  predicate Lossless(s: State, handler: Handler) {
    if s.alive then
      Decode(s.queue).Some? && s.handled + Decode(s.queue).value == s.written
    else
      s.handled != [] && s.handled <= s.written && !handler(s.handled)
  }

  lemma WriteKeeps(s: State, m: Msg, handler: Handler)
    requires Lossless(s, handler) && s.alive && Valid(m)
    ensures Lossless(Step(s, Write(m), handler), handler)
  {
    var ms := Decode(s.queue).value;
    EncodeAllAppend(ms, [m]);
    assert EncodeAll([m]) == Encode(m);
    DecodeEncodeAll(ms + [m]);
    assert s.handled + (ms + [m]) == s.written + [m];
  }

  /** A poll of a live connection hands over a non-empty prefix of the messages still queued. */
  lemma PollFeeds(s: State, ms: seq<Msg>, handler: Handler) returns (k: nat)
    requires s.alive && AllValid(ms) && ms != [] && s.queue == EncodeAll(ms)
    ensures 0 < k <= |ms|
    ensures var o := Feed(ms[..k], s.handled, handler);
            Step(s, Poll, handler) == s.(queue := EncodeAll(ms[k..]), handled := o.log, alive := o.ok)
  {
    hide EncodeAll, ReadSpec, DispatchFrom, Feed, Decode;
    EncodeAllLength(ms);
    k := ReadTakesWholeMessages(ms);
    DispatchEncoded([], ms[..k], s.handled, handler);
    assert [] + EncodeAll(ms[..k]) == EncodeAll(ms[..k]);
  }

  lemma PollKeeps(s: State, handler: Handler)
    requires Lossless(s, handler) && s.alive && s.queue != []
    ensures var t := Step(s, Poll, handler);
            && Lossless(t, handler)
            && |t.handled| > |s.handled|
            && t.written == s.written
  {
    hide Feed, Step, ReadSpec, EncodeAll;
    var ms := Decode(s.queue).value;
    var k := PollFeeds(s, ms, handler);
    FeedLog(ms[..k], s.handled, handler);
    DecodeEncodeAll(ms[k..]);
    PrefixKept(s.handled, ms, k, |Feed(ms[..k], s.handled, handler).log| - |s.handled|);
  }

  lemma PrefixKept(done: seq<Msg>, ms: seq<Msg>, k: nat, n: nat)
    requires n <= k <= |ms|
    ensures done + ms[..k][..n] <= done + ms
    ensures done + ms[..k] + ms[k..] == done + ms
  {
    assert ms[..k][..n] == ms[..n];
    assert ms[..k] + ms[k..] == ms;
  }

  /** The messages a run writes: those of its `Write` events, in order. */
  function Sent(es: seq<Event>): seq<Msg> {
    if es == [] then []
    else
      var e := es[|es| - 1];
      Sent(es[..|es| - 1]) + if e.Write? && Valid(e.m) then [e.m] else []
  }

  /** The handler was given every proper prefix of `log` and accepted it. */
  predicate AcceptedUpTo(log: seq<Msg>, n: int, handler: Handler)
    requires n <= |log|
  {
    forall k :: 0 < k <= n ==> handler(log[..k])
  }

  lemma {:induction false} FeedAccepts(ms: seq<Msg>, log: seq<Msg>, handler: Handler)
    requires AcceptedUpTo(log, |log|, handler)
    ensures var o := Feed(ms, log, handler);
            AcceptedUpTo(o.log, if o.ok then |o.log| else |o.log| - 1, handler)
    decreases |ms|
  {
    if ms != [] {
      var more := log + [ms[0]];
      assert forall k :: 0 < k <= |log| ==> more[..k] == log[..k];
      assert more[..|more|] == more;
      if handler(more) {
        FeedAccepts(ms[1..], more, handler);
      }
    } else {
      assert log[..|log|] == log;
    }
  }

  /** The writer's and the reader's side of a run. */
  predicate Faithful(s: State, sent: seq<Msg>, handler: Handler) {
    && (if s.alive then s.written == sent else s.written <= sent)
    && (s.alive || s.handled != [])
    && AcceptedUpTo(s.handled, if s.alive then |s.handled| else |s.handled| - 1, handler)
  }

  lemma PollFaithful(s: State, sent: seq<Msg>, handler: Handler)
    requires Lossless(s, handler) && s.alive && s.queue != [] && Faithful(s, sent, handler)
    ensures Faithful(Step(s, Poll, handler), sent, handler)
  {
    hide ReadSpec, DispatchFrom, Feed;
    var ms := Decode(s.queue).value;
    var k := PollFeeds(s, ms, handler);
    PollKeeps(s, handler);
    FeedAccepts(ms[..k], s.handled, handler);
  }

  /** Every interleaving of writes and polls is lossless and in order: what was handled, followed by what
      is queued, is what was sent; and a connection dies only at the first message the handler
      refuses, having handled all before it. */
  lemma {:induction false} RunsAreLossless(es: seq<Event>, handler: Handler)
    ensures var s := Run(es, handler);
            && Lossless(s, handler) && Faithful(s, Sent(es), handler)
            && (s.alive ==> s.handled + Decode(s.queue).value == Sent(es))
            && (!s.alive ==> s.handled <= Sent(es) && !handler(s.handled))
  {
    if es != [] {
      var s, e := Run(es[..|es| - 1], handler), es[|es| - 1];
      RunsAreLossless(es[..|es| - 1], handler);
      if s.alive && e.Write? && Valid(e.m) {
        WriteKeeps(s, e.m, handler);
      } else if s.alive && e.Poll? && s.queue != [] {
        PollKeeps(s, handler);
        PollFaithful(s, Sent(es[..|es| - 1]), handler);
      }
    }
  }

  function Polls(s: State, n: nat, handler: Handler): State
    decreases n
  {
    if n == 0 then s else Polls(Step(s, Poll, handler), n - 1, handler)
  }

  /** Delivery: once the writer stops, polling a reader that accepts everything empties the queue,
      and the reader has then been given every message, within one poll per message. */
  lemma {:induction false} PollsDeliver(s: State, n: nat, handler: Handler)
    requires Lossless(s, handler) && s.alive
    requires forall h :: handler(h)
    requires n >= |s.written| - |s.handled|
    ensures Polls(s, n, handler) == s.(queue := [], handled := s.written)
    decreases n
  {
    var ms := Decode(s.queue).value;
    if s.queue == [] {
      EncodeAllLength(ms);
    } else {
      PollKeeps(s, handler);
    }
    if n > 0 {
      PollsDeliver(Step(s, Poll, handler), n - 1, handler);
    }
  }

  function Polling(n: nat): seq<Event> {
    seq(n, _ => Poll)
  }

  lemma {:induction false} RunThenPolls(es: seq<Event>, n: nat, handler: Handler)
    ensures Run(es + Polling(n), handler) == Polls(Run(es, handler), n, handler)
    decreases n
  {
    if n == 0 {
      assert es + Polling(0) == es;
    } else {
      RunThenPolls(es + [Poll], n - 1, handler);
      assert (es + [Poll]) + Polling(n - 1) == es + Polling(n);
      assert (es + [Poll])[..|es|] == es;
    }
  }

  lemma AcceptedStaysAlive(es: seq<Event>, handler: Handler)
    requires forall h :: handler(h)
    ensures Run(es, handler).alive
  {
    RunsAreLossless(es, handler);
  }

  /** End to end: after any run, polling a reader that accepts everything once per message sent gives it
      exactly the messages sent, in order. */
  lemma SentIsHandled(es: seq<Event>, n: nat, handler: Handler)
    requires (forall h :: handler(h)) && n >= |Sent(es)|
    ensures var s := Run(es + Polling(n), handler); s.alive && s.handled == Sent(es) && s.queue == []
  {
    RunsAreLossless(es, handler);
    AcceptedStaysAlive(es, handler);
    PollsDeliver(Run(es, handler), n, handler);
    RunThenPolls(es, n, handler);
  }

  // ---------------------------------------------------------------------------------------
  // The receiving end as the program runs it

  /** `client_callback` and `spr16_client_update`: one read into the global buffer, then dispatch. */
  class Endpoint {
    const sock: Socket
    const g: array<Byte>
    var handled: seq<Msg>
    var alive: bool

    constructor (s: Socket)
      requires s.open && s.bytes == []
      ensures sock == s && fresh(g) && g.Length == BUF_SIZE
      ensures alive && handled == []
    {
      sock := s;
      g := new Byte[BUF_SIZE];
      handled, alive := [], true;
    }

    ghost function View(written: seq<Msg>): State
      reads this, sock
    {
      State(written, sock.bytes, handled, alive)
    }

    /** One readiness callback refines `Step(_, Poll)`. */
    method OnReadable(handler: Handler, ghost written: seq<Msg>)
      requires g.Length == BUF_SIZE && alive && sock.bytes != []
      modifies this, sock`bytes, g
      ensures View(written) == Step(old(View(written)), Poll, handler)
    {
      var len := ReadMsgs(sock, g);
      if len == -1 {
        alive := false;
      } else {
        var o := Dispatch(g, len, handled, handler);
        handled, alive := o.log, o.ok;
      }
    }
  }
}
