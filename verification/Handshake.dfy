/** platform/linux/server.c: what the server does with each message of one client
    (spr16_server_register_sprite, handle_ack, handle_nack, spr16_server_sync). */
module Handshake {
  import opened Common
  import opened Blit
  import opened ClientRecord
  import Damage

  /** The dimensions of the framebuffer, and PIXL_ALIGN, the grid its copies are made on. */
  datatype Screen = Screen(width: nat, height: nat, bpp: nat, align: nat)

  /** The handshake fields of `struct client`; `mapped` is `shmem.addr != NULL`. */
  datatype Peer = Peer(
    handshaking: bool, connected: bool, recvFdWait: bool,
    width: nat, height: nat, bpp: nat, shmFd: int, mapped: bool,
    syncFlags: SyncFlags, slots: seq<Region>)

  const NewPeer := Peer(false, false, false, 0, 0, 0, -1, false, NO_FLAGS, [])

  const ESTABLISHED := 1
  const SEND_FD := 5

  /** What a client can put on the wire, as the server's dispatch loop sees it. */
  datatype Inbound =
    | ServInfoRequest
    | Register(width: nat, height: nat, bpp: nat)
    | Ack(info: nat)
    | Nack(info: nat)
    | Sync(d: Region, flags: SyncFlags)
    | Unknown

  /** What the server writes. `FdByte` is the single byte that carries the descriptor. */
  datatype Outbound = ServInfo | RecvFd | FdByte | VsyncAck | Input | Refusal(fatal: bool)

  /** What the kernel answers: the new memory descriptor (-1 on failure), and whether a send works. */
  datatype Env = Env(memfd: int, sendOk: bool)

  /** The milestones of a connection. */
  datatype Deed = Registered | SentFd | Connected

  /** `ok` is false when the handler returns -1, whereupon the server removes the client.
      `enlist` is set when `add_sync_client` is called. */
  datatype Result = Result(peer: Peer, out: seq<Outbound>, ok: bool, deed: Option<Deed>, enlist: bool)

  function Refuse(p: Peer, out: seq<Outbound>): Result {
    Result(p, out, false, None, false)
  }

  function HandleRegister(p: Peer, fb: Screen, width: nat, height: nat, bpp: nat, env: Env): Result {
    if p.handshaking || p.connected then Refuse(p, [])
    else if width > fb.width || width == 0 then Refuse(p, [Refusal(false)])
    else if height > fb.height || height == 0 then Refuse(p, [Refusal(false)])
    else if bpp > fb.bpp || bpp < 8 then Refuse(p, [Refusal(false)])
    else
      var p1 := p.(handshaking := true, width := width, height := height, bpp := bpp, mapped := false);
      if env.memfd == -1 then Refuse(p1, [Refusal(false)])
      else
        var p2 := p1.(shmFd := env.memfd, mapped := true);
        if !env.sendOk then Refuse(p2, [])
        else Result(p2.(recvFdWait := true), [RecvFd], true, Some(Registered), false)
  }

  function HandleAck(p: Peer, info: nat, env: Env): Result {
    if info == ESTABLISHED then
      if !p.handshaking then Refuse(p, [])
      else Result(p.(connected := true, handshaking := false), [], true, Some(Connected), false)
    else if info == SEND_FD then
      if !p.recvFdWait || p.shmFd <= 0 || !env.sendOk then Refuse(p, [])
      else Result(p.(recvFdWait := false), [FdByte], true, Some(SentFd), false)
    else Refuse(p, [])
  }

  function HandleSync(p: Peer, fb: Screen, d: Region, flags: SyncFlags): Result
    requires |p.slots| <= DMG_SLOTS
  {
    if !Damage.Accepted(fb.width, fb.height, d) || !p.mapped then Refuse(p, [])
    else
      var p1 := p.(slots := Damage.Accumulate(p.slots, d));
      if flags.other != 0 then Refuse(p1, [])
      else if flags == NO_FLAGS then Result(p1, [], true, None, false)
      else Result(p1.(syncFlags := Merge(p1.syncFlags, flags)), [], true, None, true)
  }

  function Handle(p: Peer, fb: Screen, m: Inbound, env: Env): (r: Result)
    requires |p.slots| <= DMG_SLOTS
    ensures |r.peer.slots| <= DMG_SLOTS
  {
    match m
    case ServInfoRequest => if env.sendOk then Result(p, [ServInfo], true, None, false) else Refuse(p, [])
    case Register(width, height, bpp) => HandleRegister(p, fb, width, height, bpp, env)
    case Ack(info) => HandleAck(p, info, env)
    case Nack(_) => Refuse(p, [])
    case Sync(d, flags) => HandleSync(p, fb, d, flags)
    case Unknown => Refuse(p, [])
  }

  // ---------------------------------------------------------------------------------------
  // Any client whatever

  /** The milestones of a conversation, up to and including the first refused message. */
  function Deeds(p: Peer, fb: Screen, ms: seq<(Inbound, Env)>): seq<Deed>
    requires |p.slots| <= DMG_SLOTS
    decreases |ms|
  {
    if ms == [] then []
    else
      var r := Handle(p, fb, ms[0].0, ms[0].1);
      var now := if r.deed.Some? then [r.deed.value] else [];
      if r.ok then now + Deeds(r.peer, fb, ms[1..]) else now
  }

  /** The milestones still possible from a given record. */
  function Ahead(p: Peer): set<Deed> {
    if !p.handshaking && !p.connected then
      if p.recvFdWait then {SentFd} else {Registered, SentFd, Connected}
    else
      (if p.recvFdWait then {SentFd} else {}) + (if p.handshaking then {Connected} else {})
  }

  /** The records that occur. */
  predicate Coherent(p: Peer) {
    && |p.slots| <= DMG_SLOTS
    && !(p.handshaking && p.connected)
    && (p.recvFdWait ==> p.handshaking || p.connected)
    && (p.mapped <==> p.handshaking || p.connected)
  }

  /** Each milestone uses itself up, and nothing brings one back. */
  lemma DeedIsSpent(p: Peer, fb: Screen, m: Inbound, env: Env)
    requires Coherent(p)
    ensures var r := Handle(p, fb, m, env);
            && (r.ok ==> Coherent(r.peer) && Ahead(r.peer) <= Ahead(p))
            && (r.deed.Some? ==> r.ok && r.deed.value in Ahead(p) && r.deed.value !in Ahead(r.peer))
            && (r.deed.Some? && !p.handshaking && !p.connected ==> r.deed.value == Registered)
            && (r.ok && r.deed.None? ==> (r.peer.handshaking || r.peer.connected <==> p.handshaking || p.connected))
  {
  }

  /** Against any client, in any order of messages and any kernel answers: registration passes at
      most once, the descriptor is sent at most once, the client is connected at most once, and
      the latter two only after registration. */
  lemma {:induction false} HandshakeIsMonotone(p: Peer, fb: Screen, ms: seq<(Inbound, Env)>)
    requires Coherent(p)
    ensures var h := Deeds(p, fb, ms);
            && Distinct(h)
            && (forall i :: 0 <= i < |h| ==> h[i] in Ahead(p))
            && (h != [] && !p.handshaking && !p.connected ==> h[0] == Registered)
    decreases |ms|
  {
    if ms != [] {
      var r := Handle(p, fb, ms[0].0, ms[0].1);
      DeedIsSpent(p, fb, ms[0].0, ms[0].1);
      if r.ok {
        HandshakeIsMonotone(r.peer, fb, ms[1..]);
      }
    }
  }

  // ---------------------------------------------------------------------------------------
  // Which registrations pass

  /** A size the screen holds, and a depth of at least eight bits that it has. */
  predicate Fits(fb: Screen, width: nat, height: nat, bpp: nat) {
    1 <= width <= fb.width && 1 <= height <= fb.height && 8 <= bpp <= fb.bpp
  }

  /** The handshake as a client that knows the protocol drives it. */
  function Protocol(width: nat, height: nat, bpp: nat, env: Env): seq<(Inbound, Env)> {
    [(Register(width, height, bpp), env), (Ack(SEND_FD), env), (Ack(ESTABLISHED), env)]
  }

  /** With good answers from the kernel the handshake runs through, for every size and depth that fits and
      for no other, where it does not even begin; a descriptor numbered 0 is never sent. */
  lemma HandshakeCompletesIff(fb: Screen, width: nat, height: nat, bpp: nat, env: Env)
    requires env.memfd >= 0 && env.sendOk
    ensures Deeds(NewPeer, fb, Protocol(width, height, bpp, env))
         == if !Fits(fb, width, height, bpp) then []
            else if env.memfd == 0 then [Registered]
            else [Registered, SentFd, Connected]
  {
    var ms := Protocol(width, height, bpp, env);
    assert ms[1..] == [ms[1], ms[2]] && ms[1..][1..] == [ms[2]] && ms[1..][1..][1..] == [];
    var r := HandleRegister(NewPeer, fb, width, height, bpp, env);
    assert r.ok <==> Fits(fb, width, height, bpp);
    if r.ok && env.memfd > 0 {
      HandshakeEnds(r.peer, fb, ms, env);
    }
  }

  /** From a registered record, the two acknowledgements lead to the connection. */
  lemma HandshakeEnds(p: Peer, fb: Screen, ms: seq<(Inbound, Env)>, env: Env)
    requires env.sendOk && |p.slots| <= DMG_SLOTS && p.handshaking && p.recvFdWait && p.shmFd > 0
    requires |ms| == 3 && ms[1] == (Ack(SEND_FD), env) && ms[2] == (Ack(ESTABLISHED), env)
    ensures Deeds(p, fb, ms[1..]) == [SentFd, Connected]
  {
    var q := Handle(p, fb, Ack(SEND_FD), env).peer;
    assert ms[1..][1..] == ms[2..] && ms[2..][1..] == [];
    assert Deeds(q, fb, ms[2..]) == [Connected];
  }

  /** What a registration does to a new record: all of it, with the size and depth asked for, or a
      refusal after which the client is neither registered nor connected. */
  lemma RegistrationIff(p: Peer, fb: Screen, width: nat, height: nat, bpp: nat, env: Env)
    requires !p.handshaking && !p.connected && |p.slots| <= DMG_SLOTS
    ensures var r := Handle(p, fb, Register(width, height, bpp), env);
            && (r.ok <==> Fits(fb, width, height, bpp) && env.memfd != -1 && env.sendOk)
            && (r.ok ==> r.out == [RecvFd] && r.deed == Some(Registered)
                         && r.peer == p.(handshaking := true, recvFdWait := true, width := width, height := height,
                                         bpp := bpp, shmFd := env.memfd, mapped := true))
            && (!r.ok ==> RecvFd !in r.out && !r.peer.connected && r.deed == None) && !r.enlist
            && (!Fits(fb, width, height, bpp) ==> r.out == [Refusal(false)] && r.peer == p)
  {
  }

  // ---------------------------------------------------------------------------------------
  // What the other messages do

  /** A sync: the damage of an accepted rectangle is recorded even when the flags are refused; a client is
      listed exactly when some flag is set; and flags only accumulate. */
  lemma SyncIff(p: Peer, fb: Screen, d: Region, flags: SyncFlags, env: Env)
    requires |p.slots| <= DMG_SLOTS
    ensures var r, taken := Handle(p, fb, Sync(d, flags), env), Damage.Accepted(fb.width, fb.height, d) && p.mapped;
            && (r.ok <==> taken && flags.other == 0)
            && r.peer == p.(slots := if taken then Damage.Accumulate(p.slots, d) else p.slots,
                            syncFlags := r.peer.syncFlags)
            && (r.enlist <==> r.ok && (flags.async || flags.vblank || flags.pageFlip))
            && (r.peer.syncFlags.vblank <==> p.syncFlags.vblank || (r.ok && flags.vblank))
            && (r.peer.syncFlags.async <==> p.syncFlags.async || (r.ok && flags.async))
            && (r.peer.syncFlags.pageFlip <==> p.syncFlags.pageFlip || (r.ok && flags.pageFlip))
            && r.out == [] && r.deed == None
  {
  }

  /** The record after a series of syncs. */
  function AfterSyncs(p: Peer, fb: Screen, ms: seq<(Region, SyncFlags)>, env: Env): (q: Peer)
    requires |p.slots| <= DMG_SLOTS
    ensures |q.slots| <= DMG_SLOTS
  {
    if ms == [] then p
    else
      var last := ms[|ms| - 1];
      Handle(AfterSyncs(p, fb, ms[..|ms| - 1], env), fb, Sync(last.0, last.1), env).peer
  }

  function Rectangles(ms: seq<(Region, SyncFlags)>): seq<Region> {
    seq(|ms|, i requires 0 <= i < |ms| => ms[i].0)
  }

  /** After any series of accepted syncs since the last vblank, the slots are those of their rectangles and a
      vblank is asked for if and only if one of them ever asked. */
  lemma {:induction false} SyncsAre(p: Peer, fb: Screen, ms: seq<(Region, SyncFlags)>, env: Env)
    requires p.mapped && p.slots == []
    requires forall k :: 0 <= k < |ms| ==> Damage.Accepted(fb.width, fb.height, ms[k].0) && ms[k].1.other == 0
    ensures var q := AfterSyncs(p, fb, ms, env);
            && q.mapped && q.slots == Damage.AccumulateAll(Rectangles(ms))
            && (q.syncFlags.vblank <==> p.syncFlags.vblank || exists k :: 0 <= k < |ms| && ms[k].1.vblank)
  {
    hide Handle, Damage.Accepted, Damage.Accumulate;
    if ms != [] {
      var rest, last := ms[..|ms| - 1], ms[|ms| - 1];
      SyncsAre(p, fb, rest, env);
      SyncIff(AfterSyncs(p, fb, rest, env), fb, last.0, last.1, env);
      assert Rectangles(ms)[..|ms| - 1] == Rectangles(rest);
      assert forall k :: 0 <= k < |rest| ==> rest[k] == ms[k];
    }
  }

  /** The remaining messages: a request for the server information is answered and changes nothing; a complaint,
      or a type that is not the client's to send, is refused and changes nothing. */
  lemma OtherMessages(p: Peer, fb: Screen, m: Inbound, env: Env)
    requires |p.slots| <= DMG_SLOTS && (m.ServInfoRequest? || m.Nack? || m.Unknown?)
    ensures var r := Handle(p, fb, m, env);
            && r.peer == p && r.deed == None && !r.enlist
            && (r.ok <==> m.ServInfoRequest? && env.sendOk)
            && r.out == if r.ok then [ServInfo] else []
  {
  }
}
