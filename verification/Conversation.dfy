/** One client and the server's record of it (platform/linux/server.c), joined by two FIFO channels
    of whole messages.  The client runs libspr16 (platform/linux/client.c), or is a foreign program that
    may send anything at any time.

    The library client reads its channel in chunks into one global buffer and dispatches the buffer message
    by message.  While it dispatches RECV_FD it drains the channel through that same buffer, asks
    for the descriptor, and waits for the byte that carries it: a message read by the drain would
    be lost, and would overwrite the part of the buffer not dispatched yet. */
module Conversation {
  import opened Common
  import opened Blit
  import opened BlitExact
  import opened ClientRecord
  import Damage
  import opened Handshake

  /** Where the client program is: in its dispatch loop, in one of the two loops of `recv_fd`, or
      stopped after an error. */
  datatype Mode = Dispatching | Draining | AwaitingFd | Stopped

  /** `width` and `height` are those of `g_sprite`, `mapping` the dimensions the descriptor was
      mapped with.  `lost` counts messages the drain discarded; `garbled` records that the client
      parsed overwritten bytes or read the descriptor byte as a message. */
  datatype Client = Client(
    mode: Mode, buf: seq<Outbound>, known: bool, handshaking: bool, waitVsync: bool,
    width: nat, height: nat, mapping: Option<(nat, nat)>, lost: nat, garbled: bool)

  const NewClient := Client(Dispatching, [], false, true, false, 0, 0, None, 0, false)

  datatype Conn = Conn(client: Client, peer: Peer, toServer: seq<Inbound>, toClient: seq<Outbound>,
                       gone: bool, foreign: bool)

  /** `server_addclient` has sent the server information. */
  const NewConn := Conn(NewClient, NewPeer, [], [ServInfo], false, false)

  // ---------------------------------------------------------------------------------------
  // Steps of the client

  /** `spr16_read_msgs` in the main loop: a chunk of the queued messages. */
  function Read(c: Conn, n: nat): Conn
    requires c.client.mode == Dispatching && c.client.buf == [] && 0 < n <= |c.toClient|
  {
    var chunk := c.toClient[..n];
    var k := c.client;
    c.(client := if FdByte in chunk then k.(mode := Stopped, garbled := true) else k.(buf := chunk),
       toClient := c.toClient[n..])
  }

  /** What one message does to the client's state. */
  function Digest(k: Client, m: Outbound): Client {
    match m
    case ServInfo => if k.known then k.(mode := Stopped) else k.(known := true)
    case RecvFd => k.(mode := Draining)
    case VsyncAck => k.(waitVsync := false)
    case Input => k
    case Refusal(fatal) => if fatal then k.(mode := Stopped) else k
    case FdByte => k.(mode := Stopped, garbled := true)
  }

  /** One turn of `spr16_dispatch_client_msgs`. */
  function Dispatch(c: Conn): Conn
    requires c.client.mode == Dispatching && c.client.buf != []
  {
    c.(client := Digest(c.client.(buf := c.client.buf[1..]), c.client.buf[0]))
  }

  /** One read of the drain loop of `recv_fd`; when nothing is left, SEND_FD is sent. */
  function Drain(c: Conn): Conn
    requires c.client.mode == Draining
  {
    var k := c.client;
    if c.toClient != [] then
      c.(client := k.(lost := k.lost + |c.toClient|, garbled := k.garbled || k.buf != [] || FdByte in c.toClient),
         toClient := [])
    else
      c.(client := k.(mode := AwaitingFd), toServer := c.toServer + [Ack(SEND_FD)])
  }

  /** One attempt of the receive loop of `recv_fd`; `mapOk` is the answer of `mmap`. */
  function Await(c: Conn, mapOk: bool): Conn
    requires c.client.mode == AwaitingFd
  {
    var k := c.client;
    if c.toClient == [] then c
    else if c.toClient[0] != FdByte then
      c.(client := k.(mode := Stopped, garbled := true), toServer := c.toServer + [Nack(11)])
    else if !mapOk then
      c.(client := k.(mode := Stopped), toServer := c.toServer + [Nack(10)], toClient := c.toClient[1..])
    else
      c.(client := k.(mode := Dispatching, mapping := Some((k.width, k.height)), handshaking := false),
         toServer := c.toServer + [Ack(ESTABLISHED)], toClient := c.toClient[1..])
  }

  function TimeOut(c: Conn): Conn
    requires c.client.mode == AwaitingFd
  {
    c.(client := c.client.(mode := Stopped), toServer := c.toServer + [Nack(11)])
  }

  /** A foreign client sends a message of its choice. */
  function Forge(c: Conn, m: Inbound): Conn {
    c.(toServer := c.toServer + [m])
  }

  function Stop(c: Conn): Conn {
    c.(client := c.client.(mode := Stopped))
  }

  /** `spr16_client_handshake_start`, which the application may call at any time, any number of times. */
  function Start(c: Conn, fb: Screen, width: nat, height: nat): Conn
    requires c.client.mode == Dispatching
  {
    var k := c.client;
    if width > (if k.known then fb.width else 0) || height > (if k.known then fb.height else 0) then c
    else c.(client := k.(width := width, height := height), toServer := c.toServer + [Register(width, height, 32)])
  }

  /** `spr16_client_sync`, with any region and flags. */
  function RequestSync(c: Conn, d: Region, flags: SyncFlags): Conn
    requires c.client.mode == Dispatching
  {
    var k := c.client;
    if k.handshaking then c
    else c.(client := k.(waitVsync := k.waitVsync || flags.vblank),
            toServer := c.toServer + [Sync(d, flags)])
  }

  // ---------------------------------------------------------------------------------------
  // Steps of the server

  /** One message of `client_callback`, without what follows a refusal. */
  function Serve(c: Conn, fb: Screen, env: Env): Conn
    requires !c.gone && c.toServer != [] && |c.peer.slots| <= DMG_SLOTS
  {
    var r := Handle(c.peer, fb, c.toServer[0], env);
    c.(peer := r.peer, toServer := c.toServer[1..], toClient := c.toClient + r.out)
  }

  /** `server_remove_client`: a connected client is told. */
  function Remove(c: Conn): Conn {
    c.(gone := true, toClient := c.toClient + if c.peer.connected then [Refusal(true)] else [])
  }

  /** A vsync acknowledgement or an input message to the focused client. */
  function Push(c: Conn, m: Outbound): Conn {
    c.(toClient := c.toClient + [m])
  }

  /** What `copy_to_fb` refuses depends on the grid and the screen width only, not on the row pitches. */
  function CopyGrid(fb: Screen): Geometry {
    Geometry(fb.align, fb.bpp / 8, fb.width, 0, 0)
  }

  predicate Refused(fb: Screen, d: Region) {
    ValidGeometry(CopyGrid(fb)) && Misaligned(CopyGrid(fb), d)
  }

  predicate AnyRefused(fb: Screen, slots: seq<Region>) {
    exists k :: 0 <= k < |slots| && Refused(fb, slots[k])
  }

  /** The bytes of sprite memory the server mapped. */
  function Mapped(p: Peer): nat {
    p.width * p.height * (p.bpp / 8)
  }

  /** The grid with the pitch of the client's sprite, as `copy_to_fb` computes it. */
  function SpriteGrid(fb: Screen, p: Peer): Geometry {
    CopyGrid(fb).(stride := p.width * (fb.bpp / 8))
  }

  /** A slot that is reached, no slot up to it being refused, is copied from beyond the mapped memory. */
  predicate Strays(fb: Screen, p: Peer) {
    ValidGeometry(CopyGrid(fb)) &&
    exists k :: 0 <= k < |p.slots| && !AnyRefused(fb, p.slots[..k + 1])
                && ReadEnd(SpriteGrid(fb, p), p.slots[k]) > Mapped(p)
  }

  /** The vblank branch of `fb_drm_fd_callback` for the focused client: its damage is copied, and it is
      told so only when no copy was refused. */
  function Flush(c: Conn, fb: Screen): Conn {
    if AnyRefused(fb, c.peer.slots) then c
    else Push(c.(peer := c.peer.(slots := [])), VsyncAck)
  }

  /** The damage and flags `server_sync_fullscreen` records for the focused client. */
  function Fullscreen(c: Conn, fb: Screen): Conn
    requires |c.peer.slots| <= DMG_SLOTS && c.peer.width > 0 && c.peer.height > 0
  {
    c.(peer := HandleSync(c.peer, fb, WholeOf(c.peer.width, c.peer.height), ASYNC_VBLANK).peer)
  }

  // ---------------------------------------------------------------------------------------
  // The invariant

  /** Everything the server has sent and the client has not dispatched. */
  function Unseen(c: Conn): seq<Outbound> {
    c.client.buf + c.toClient
  }

  predicate AllRegister(q: seq<Inbound>) {
    forall i :: 0 <= i < |q| ==> q[i].Register?
  }

  predicate AllNack(q: seq<Inbound>) {
    forall i :: 0 <= i < |q| ==> q[i].Nack?
  }

  predicate AllLater(q: seq<Inbound>) {
    forall i :: 0 <= i < |q| ==> q[i].Register? || q[i].Sync?
  }

  predicate AllCalm(q: seq<Outbound>) {
    forall i :: 0 <= i < |q| ==> q[i].VsyncAck? || q[i].Input? || q[i].Refusal?
  }

  /** A queued request for a vblank. */
  predicate WantsVblank(m: Inbound) {
    m.Sync? && m.flags.vblank
  }

  predicate VblankQueued(q: seq<Inbound>) {
    exists i :: 0 <= i < |q| && WantsVblank(q[i])
  }

  /** The descriptor byte and RECV_FD are never accompanied, and the client is where it must be. */
  predicate Shape(c: Conn) {
    var k, u := c.client, Unseen(c);
    && (RecvFd in u ==> u == [RecvFd] && (k.mode == Dispatching || k.mode == Stopped))
    && (FdByte in u ==> u == [FdByte] && k.buf == [] && (k.mode == AwaitingFd || k.mode == Stopped))
    && (k.mode == Draining ==> u == [])
    && (k.mode == AwaitingFd ==> u == [] || u == [FdByte])
  }

  predicate SameSize(c: Conn) {
    c.client.width == c.peer.width && c.client.height == c.peer.height
  }

  /** Before registration. */
  predicate FreshStage(c: Conn) {
    var k, q := c.client, c.toServer;
    && (k.mode == Dispatching || k.mode == Stopped)
    && k.handshaking && k.mapping == None && AllRegister(q)
    && Unseen(c) == (if k.known then [] else [ServInfo])
    && (forall i :: 0 <= i < |q| && q[i].width > 0 ==> k.known)
    && (q != [] ==> q[|q| - 1] == Register(k.width, k.height, 32))
  }

  /** SEND_FD queued behind registrations only, perhaps with a complaint after it. */
  predicate Asked(q: seq<Inbound>) {
    || (|q| > 0 && AllRegister(q[..|q| - 1]) && q[|q| - 1] == Ack(SEND_FD))
    || (|q| > 1 && AllRegister(q[..|q| - 2]) && q[|q| - 2] == Ack(SEND_FD) && q[|q| - 1].Nack?)
  }

  /** RECV_FD sent, the descriptor not yet. */
  predicate OfferedStage(c: Conn) {
    var k, q := c.client, c.toServer;
    && k.handshaking && k.mapping == None
    && (if AllRegister(q) then
          && (k.mode == Dispatching ==> Unseen(c) == [RecvFd])
          && (k.mode == Stopped ==> Unseen(c) == [] || Unseen(c) == [RecvFd])
          && k.mode != AwaitingFd
        else
          && Asked(q) && Unseen(c) == [] && (k.mode == AwaitingFd || k.mode == Stopped)
          && (k.mode == AwaitingFd ==> q[|q| - 1] == Ack(SEND_FD)))
    && (q == [] || !q[0].Register? ==> SameSize(c))
  }

  /** The descriptor sent, ESTABLISHED not yet handled. */
  predicate SentStage(c: Conn) {
    var k, q := c.client, c.toServer;
    if k.mapping == None then
      && k.handshaking && SameSize(c)
      && (k.mode == AwaitingFd || k.mode == Stopped)
      && (k.mode == AwaitingFd ==> Unseen(c) == [FdByte] && q == [])
      && (k.mode == Stopped ==> (Unseen(c) == [] || Unseen(c) == [FdByte]) && AllNack(q))
    else
      && !k.handshaking && k.mapping == Some((c.peer.width, c.peer.height))
      && (k.mode == Dispatching || k.mode == Stopped)
      && Unseen(c) == []
      && q != [] && q[0] == Ack(ESTABLISHED) && AllLater(q[1..])
      && (k.waitVsync ==> VblankQueued(q))
  }

  predicate ConnectedStage(c: Conn) {
    var k, q := c.client, c.toServer;
    && !k.handshaking && k.mapping == Some((c.peer.width, c.peer.height))
    && (k.mode == Dispatching || k.mode == Stopped)
    && AllCalm(Unseen(c)) && AllLater(q)
  }

  /** The four stages of a library client's conversation. */
  predicate Stage(c: Conn) {
    if !c.peer.handshaking && !c.peer.connected then FreshStage(c)
    else if c.peer.recvFdWait then c.peer.handshaking && OfferedStage(c)
    else if c.peer.handshaking then SentStage(c)
    else ConnectedStage(c)
  }

  /** Pending damage lies on the screen. */
  predicate OnScreen(fb: Screen, slots: seq<Region>) {
    forall k :: 0 <= k < |slots| ==> Damage.Accepted(fb.width, fb.height, slots[k])
  }

  /** What the server can rely on, whatever the client. */
  predicate PeerSound(p: Peer, gone: bool, fb: Screen) {
    && |p.slots| <= DMG_SLOTS && OnScreen(fb, p.slots)
    && (!gone ==>
          && Coherent(p)
          && (p.handshaking || p.connected ==> 0 < p.width <= fb.width && 0 < p.height <= fb.height))
  }

  predicate Library(c: Conn) {
    && c.client.lost == 0 && !c.client.garbled
    && (c.client.handshaking ==> !c.client.waitVsync)
    && Shape(c)
    && (!c.gone ==> Stage(c))
  }

  /** Nothing is known about the state of a foreign client. */
  predicate Inv(c: Conn, fb: Screen) {
    PeerSound(c.peer, c.gone, fb) && if c.foreign then c.client == NewClient else Library(c)
  }

  // ---------------------------------------------------------------------------------------
  // Every step keeps it

  lemma NewKeeps(fb: Screen, foreign: bool)
    ensures Inv(NewConn.(foreign := foreign), fb)
  {
    hide OfferedStage, SentStage, ConnectedStage;
    assert Unseen(NewConn) == [ServInfo];
  }

  lemma ForgeKeeps(c: Conn, fb: Screen, m: Inbound)
    requires Inv(c, fb) && c.foreign
    ensures Inv(Forge(c, m), fb)
  {
  }

  lemma ReadKeeps(c: Conn, fb: Screen, n: nat)
    requires Inv(c, fb) && !c.foreign && c.client.mode == Dispatching && c.client.buf == [] && 0 < n <= |c.toClient|
    ensures Inv(Read(c, n), fb) && Unseen(Read(c, n)) == Unseen(c)
  {
    assert Unseen(c) == c.toClient == c.toClient[..n] + c.toClient[n..];
    assert FdByte !in c.toClient[..n];
  }

  lemma DispatchKeeps(c: Conn, fb: Screen)
    requires Inv(c, fb) && !c.foreign && c.client.mode == Dispatching && c.client.buf != []
    ensures Inv(Dispatch(c), fb) && Unseen(Dispatch(c)) == Unseen(c)[1..]
  {
    hide Shape, Stage, Unseen, PeerSound;
    DispatchShape(c, fb);
    if !c.gone {
      DispatchStage(c, fb);
    }
    DispatchRest(c);
  }

  /** What a dispatch leaves alone, and that only an acknowledgement ends the waiting. */
  lemma DispatchRest(c: Conn)
    requires c.client.mode == Dispatching && c.client.buf != []
    ensures var t := Dispatch(c);
            && t.peer == c.peer && t.toServer == c.toServer && t.gone == c.gone && t.foreign == c.foreign
            && t.client.lost == c.client.lost && t.client.handshaking == c.client.handshaking
            && (t.client.waitVsync ==> c.client.waitVsync)
  {
  }

  lemma DispatchShape(c: Conn, fb: Screen)
    requires Inv(c, fb) && !c.foreign && c.client.mode == Dispatching && c.client.buf != []
    ensures Shape(Dispatch(c)) && Unseen(Dispatch(c)) == Unseen(c)[1..]
    ensures !Dispatch(c).client.garbled
  {
    hide Stage, PeerSound;
    assert Unseen(Dispatch(c)) == Unseen(c)[1..];
    assert Unseen(c)[0] == c.client.buf[0];
  }

  lemma DispatchStage(c: Conn, fb: Screen)
    requires Inv(c, fb) && !c.foreign && !c.gone && c.client.mode == Dispatching && c.client.buf != []
    ensures Stage(Dispatch(c))
  {
    DispatchShape(c, fb);
    DispatchRest(c);
    assert Unseen(c)[0] == c.client.buf[0];
    hide Shape, PeerSound, Unseen, Dispatch, FreshStage, OfferedStage, SentStage, ConnectedStage;
    if !c.peer.handshaking && !c.peer.connected {
      DispatchFresh(c);
    } else if c.peer.recvFdWait {
      DispatchOffered(c);
    } else {
      DispatchLater(c);
    }
  }

  /** Before registration the only message is the server information. */
  lemma DispatchFresh(c: Conn)
    requires FreshStage(c) && c.client.mode == Dispatching && c.client.buf != []
    requires Unseen(c) != [] && Unseen(c)[0] == c.client.buf[0] && Unseen(Dispatch(c)) == Unseen(c)[1..]
    ensures FreshStage(Dispatch(c))
  {
    hide Unseen;
  }

  /** RECV_FD is answered by draining. */
  lemma DispatchOffered(c: Conn)
    requires OfferedStage(c) && c.client.mode == Dispatching && c.client.buf != []
    requires Unseen(c) != [] && Unseen(c)[0] == c.client.buf[0] && Unseen(Dispatch(c)) == Unseen(c)[1..]
    ensures OfferedStage(Dispatch(c))
  {
    hide Unseen;
  }

  /** After that only acknowledgements, input and complaints are dispatched. */
  lemma DispatchLater(c: Conn)
    requires c.client.mode == Dispatching && c.client.buf != []
    requires Unseen(c) != [] && Unseen(c)[0] == c.client.buf[0] && Unseen(Dispatch(c)) == Unseen(c)[1..]
    ensures SentStage(c) ==> SentStage(Dispatch(c))
    ensures ConnectedStage(c) ==> ConnectedStage(Dispatch(c))
  {
    hide Unseen;
  }

  lemma DrainKeeps(c: Conn, fb: Screen)
    requires Inv(c, fb) && !c.foreign && c.client.mode == Draining
    ensures Inv(Drain(c), fb)
  {
    assert c.client.buf == [] && c.toClient == [];
    var q := c.toServer + [Ack(SEND_FD)];
    assert q[..|q| - 1] == c.toServer;
    assert !c.gone ==> !AllRegister(q) by {
      assert !q[|q| - 1].Register?;
    }
  }

  lemma AwaitKeeps(c: Conn, fb: Screen, mapOk: bool)
    requires Inv(c, fb) && !c.foreign && c.client.mode == AwaitingFd
    ensures Inv(Await(c, mapOk), fb)
  {
    assert c.client.buf == [];
    assert Unseen(c) == c.toClient;
  }

  lemma TimeOutKeeps(c: Conn, fb: Screen)
    requires Inv(c, fb) && !c.foreign && c.client.mode == AwaitingFd
    ensures Inv(TimeOut(c), fb)
  {
    var q, t := c.toServer, c.toServer + [Nack(11)];
    assert Unseen(TimeOut(c)) == Unseen(c);
    if !c.gone && c.peer.recvFdWait {
      assert t[..|t| - 2] == q[..|q| - 1];
      assert !t[|t| - 1].Register?;
    }
  }

  lemma StopKeeps(c: Conn, fb: Screen)
    requires Inv(c, fb) && !c.foreign
    ensures Inv(Stop(c), fb)
  {
    assert Unseen(Stop(c)) == Unseen(c);
  }

  lemma StartKeeps(c: Conn, fb: Screen, width: nat, height: nat)
    requires Inv(c, fb) && !c.foreign && c.client.mode == Dispatching
    ensures Inv(Start(c, fb, width, height), fb)
  {
    hide PeerSound;
    var t := Start(c, fb, width, height);
    assert Unseen(t) == Unseen(c);
    if t != c && !c.gone {
      StartStage(c, fb, width, height);
    }
  }

  lemma StartStage(c: Conn, fb: Screen, width: nat, height: nat)
    requires Inv(c, fb) && !c.foreign && !c.gone && c.client.mode == Dispatching
    ensures Stage(Start(c, fb, width, height))
  {
    hide PeerSound, Shape;
    var t := Start(c, fb, width, height);
    assert Unseen(t) == Unseen(c);
    if t != c && c.client.mapping != None && c.peer.handshaking {
      assert t.toServer[1..] == c.toServer[1..] + [Register(width, height, 32)];
      if c.client.waitVsync {
        QueuedStays(c.toServer, Register(width, height, 32));
      }
    }
  }

  lemma RequestSyncKeeps(c: Conn, fb: Screen, d: Region, flags: SyncFlags)
    requires Inv(c, fb) && !c.foreign && c.client.mode == Dispatching
    ensures Inv(RequestSync(c, d, flags), fb)
  {
    var t := RequestSync(c, d, flags);
    assert Unseen(t) == Unseen(c);
    if !c.gone && t != c && c.peer.handshaking {
      assert t.toServer[1..] == c.toServer[1..] + [Sync(d, flags)];
      if c.client.waitVsync {
        var i :| 0 <= i < |c.toServer| && WantsVblank(c.toServer[i]);
        assert WantsVblank(t.toServer[i]);
      } else if t.client.waitVsync {
        assert WantsVblank(t.toServer[|c.toServer|]);
      }
    }
  }

  lemma DamageStaysOnScreen(p: Peer, fb: Screen, m: Inbound, env: Env)
    requires |p.slots| <= DMG_SLOTS && OnScreen(fb, p.slots)
    ensures OnScreen(fb, Handle(p, fb, m, env).peer.slots)
  {
    if m.Sync? && Damage.Accepted(fb.width, fb.height, m.d) {
      Damage.AccumulateCovers(p.slots, m.d, fb.width, fb.height);
    }
  }

  /** Whatever message arrives, and from whatever client, the server's own record stays sound. */
  lemma ServePeer(c: Conn, fb: Screen, env: Env)
    requires PeerSound(c.peer, c.gone, fb) && !c.gone && c.toServer != []
    ensures var r := Handle(c.peer, fb, c.toServer[0], env);
            PeerSound(Serve(c, fb, env).peer, !r.ok, fb)
  {
    hide OnScreen;
    DamageStaysOnScreen(c.peer, fb, c.toServer[0], env);
    DeedIsSpent(c.peer, fb, c.toServer[0], env);
  }

  lemma ServeFresh(c: Conn, fb: Screen, env: Env)
    requires Inv(c, fb) && !c.foreign && !c.gone && c.toServer != [] && !c.peer.handshaking && !c.peer.connected
    ensures var r := Handle(c.peer, fb, c.toServer[0], env);
            Inv(if r.ok then Serve(c, fb, env) else Remove(Serve(c, fb, env)), fb)
  {
    ServePeer(c, fb, env);
    hide Handle, PeerSound, Shape, Stage;
    if Handle(c.peer, fb, c.toServer[0], env).ok {
      ServeFirst(c, fb, env);
    } else {
      FirstRefused(c, fb, env);
    }
  }

  lemma FirstRefused(c: Conn, fb: Screen, env: Env)
    requires Inv(c, fb) && !c.foreign && !c.gone && c.toServer != [] && !c.peer.handshaking && !c.peer.connected
    requires !Handle(c.peer, fb, c.toServer[0], env).ok
    ensures Shape(Remove(Serve(c, fb, env)))
  {
    hide OfferedStage, SentStage, ConnectedStage, Handle;
    FirstRefusal(c.peer, fb, c.toServer[0], env);
    assert Unseen(Remove(Serve(c, fb, env))) == Unseen(c) + Handle(c.peer, fb, c.toServer[0], env).out;
  }

  lemma FirstRefusal(p: Peer, fb: Screen, m: Inbound, env: Env)
    requires |p.slots| <= DMG_SLOTS && !p.handshaking && !p.connected && !Handle(p, fb, m, env).ok
    ensures var r := Handle(p, fb, m, env); !r.peer.connected && (r.out == [] || r.out == [Refusal(false)])
  {
  }

  /** The registration that passes. */
  lemma ServeFirst(c: Conn, fb: Screen, env: Env)
    requires Inv(c, fb) && !c.foreign && !c.gone && c.toServer != [] && !c.peer.handshaking && !c.peer.connected
    requires Handle(c.peer, fb, c.toServer[0], env).ok
    ensures Inv(Serve(c, fb, env), fb)
  {
    ServePeer(c, fb, env);
    hide SentStage, ConnectedStage;
    var r := Handle(c.peer, fb, c.toServer[0], env);
    var t := Serve(c, fb, env);
    assert c.toServer[0].Register? && c.toServer[0].width > 0;
    assert Unseen(t) == Unseen(c) + r.out == [RecvFd];
    assert AllRegister(t.toServer) && (t.toServer != [] ==> t.toServer[0].Register?);
    hide FreshStage;
    assert OfferedStage(t);
  }

  lemma ServeOffered(c: Conn, fb: Screen, env: Env)
    requires Inv(c, fb) && !c.foreign && !c.gone && c.toServer != [] && c.peer.handshaking && c.peer.recvFdWait
    ensures var r := Handle(c.peer, fb, c.toServer[0], env);
            Inv(if r.ok then Serve(c, fb, env) else Remove(Serve(c, fb, env)), fb)
  {
    ServePeer(c, fb, env);
    hide Handle, PeerSound, Shape, Stage;
    if Handle(c.peer, fb, c.toServer[0], env).ok {
      OfferedAccepted(c, fb, env);
    } else {
      OfferedRefused(c, fb, env);
    }
  }

  lemma OfferedAccepted(c: Conn, fb: Screen, env: Env)
    requires Inv(c, fb) && !c.foreign && !c.gone && c.toServer != [] && c.peer.handshaking && c.peer.recvFdWait
    requires Handle(c.peer, fb, c.toServer[0], env).ok
    ensures var t := Serve(c, fb, env); Shape(t) && Stage(t)
  {
    hide FreshStage, ConnectedStage;
    var q, t := c.toServer, Serve(c, fb, env);
    assert Unseen(t) == Unseen(c) + Handle(c.peer, fb, q[0], env).out;
    assert q[0] == Ack(SEND_FD);
    assert !AllRegister(q);
    assert |q| > 1 ==> |q| == 2 && q[1].Nack?;
    assert SentStage(t);
  }

  lemma OfferedRefused(c: Conn, fb: Screen, env: Env)
    requires Inv(c, fb) && !c.foreign && !c.gone && c.toServer != [] && c.peer.handshaking && c.peer.recvFdWait
    requires !Handle(c.peer, fb, c.toServer[0], env).ok
    ensures Shape(Remove(Serve(c, fb, env)))
  {
    hide FreshStage, ConnectedStage, SentStage;
    RefusedQuietly(c.peer, fb, c.toServer[0], env);
    assert Unseen(Remove(Serve(c, fb, env))) == Unseen(c);
  }

  lemma ServeLater(c: Conn, fb: Screen, env: Env)
    requires Inv(c, fb) && !c.foreign && !c.gone && c.toServer != [] && (c.peer.handshaking || c.peer.connected) && !c.peer.recvFdWait
    ensures var r := Handle(c.peer, fb, c.toServer[0], env);
            Inv(if r.ok then Serve(c, fb, env) else Remove(Serve(c, fb, env)), fb)
  {
    ServePeer(c, fb, env);
    hide Handle, PeerSound, Shape, Stage;
    if Handle(c.peer, fb, c.toServer[0], env).ok {
      LaterAccepted(c, fb, env);
    } else {
      LaterRefused(c, fb, env);
    }
  }

  lemma LaterAccepted(c: Conn, fb: Screen, env: Env)
    requires Inv(c, fb) && !c.foreign && !c.gone && c.toServer != [] && (c.peer.handshaking || c.peer.connected) && !c.peer.recvFdWait
    requires Handle(c.peer, fb, c.toServer[0], env).ok
    ensures var t := Serve(c, fb, env); Shape(t) && Stage(t)
  {
    hide FreshStage, OfferedStage;
    var r := Handle(c.peer, fb, c.toServer[0], env);
    assert r.out == [];
    assert Unseen(Serve(c, fb, env)) == Unseen(c);
  }

  lemma LaterRefused(c: Conn, fb: Screen, env: Env)
    requires Inv(c, fb) && !c.foreign && !c.gone && c.toServer != [] && (c.peer.handshaking || c.peer.connected) && !c.peer.recvFdWait
    requires !Handle(c.peer, fb, c.toServer[0], env).ok
    ensures Shape(Remove(Serve(c, fb, env)))
  {
    hide FreshStage, OfferedStage, Handle;
    RefusedQuietly(c.peer, fb, c.toServer[0], env);
    var t := Serve(c, fb, env);
    assert Unseen(Remove(t)) == Unseen(c) + (if c.peer.connected then [Refusal(true)] else []);
  }

  /** After registration a refused message is not answered. */
  lemma RefusedQuietly(p: Peer, fb: Screen, m: Inbound, env: Env)
    requires |p.slots| <= DMG_SLOTS && (p.handshaking || p.connected) && !Handle(p, fb, m, env).ok
    ensures Handle(p, fb, m, env).out == [] && Handle(p, fb, m, env).peer.connected == p.connected
  {
  }

  lemma ServeKeeps(c: Conn, fb: Screen, env: Env)
    requires Inv(c, fb) && !c.gone && c.toServer != []
    ensures var r := Handle(c.peer, fb, c.toServer[0], env);
            Inv(if r.ok then Serve(c, fb, env) else Remove(Serve(c, fb, env)), fb)
  {
    if c.foreign {
      ServePeer(c, fb, env);
    } else if !c.peer.handshaking && !c.peer.connected {
      ServeFresh(c, fb, env);
    } else if c.peer.recvFdWait {
      ServeOffered(c, fb, env);
    } else {
      ServeLater(c, fb, env);
    }
  }

  lemma RemoveKeeps(c: Conn, fb: Screen)
    requires Inv(c, fb) && !c.gone
    ensures Inv(Remove(c), fb)
  {
    assert Unseen(Remove(c)) == Unseen(c) + (if c.peer.connected then [Refusal(true)] else []);
  }

  lemma PushKeeps(c: Conn, fb: Screen, m: Outbound)
    requires Inv(c, fb) && !c.gone && c.peer.connected && (m == VsyncAck || m == Input)
    ensures Inv(Push(c, m), fb)
  {
    assert Unseen(Push(c, m)) == Unseen(c) + [m];
  }

  lemma FlushKeeps(c: Conn, fb: Screen)
    requires Inv(c, fb) && !c.gone && c.peer.connected
    ensures Inv(Flush(c, fb), fb)
  {
    var d := c.(peer := c.peer.(slots := []));
    assert Unseen(d) == Unseen(c);
    assert Inv(d, fb);
    hide Inv;
    PushKeeps(d, fb, VsyncAck);
  }

  /** Screens on which every on-screen rectangle is copied: rows measured without overflow, and a width
      of whole grid cells. */
  predicate Copies(fb: Screen) {
    ValidGeometry(CopyGrid(fb)) && NarrowRows(CopyGrid(fb)) && fb.width % fb.align == 0
  }

  lemma NeverRefused(c: Conn, fb: Screen)
    requires Inv(c, fb) && Copies(fb)
    ensures !AnyRefused(fb, c.peer.slots)
  {
    forall k | 0 <= k < |c.peer.slots|
      ensures !Refused(fb, c.peer.slots[k])
    {
      assert Damage.Accepted(fb.width, fb.height, c.peer.slots[k]);
      RefusedIff(CopyGrid(fb), c.peer.slots[k]);
    }
  }

  /** On such a screen, with no copy refused, the copies of the pending slots leave the sprite's memory if
      and only if some slot's last row ends beyond it. */
  lemma StraysIff(c: Conn, fb: Screen)
    requires Inv(c, fb) && Copies(fb) && Depth(CopyGrid(fb)) && fb.height < U16_RANGE
    ensures Strays(fb, c.peer) <==>
            exists k :: 0 <= k < |c.peer.slots| && LastRowEnd(SpriteGrid(fb, c.peer), c.peer.slots[k]) > Mapped(c.peer)
  {
    var p, g := c.peer, SpriteGrid(fb, c.peer);
    NeverRefused(c, fb);
    forall k | 0 <= k < |p.slots|
      ensures !AnyRefused(fb, p.slots[..k + 1]) && ReadEnd(g, p.slots[k]) == LastRowEnd(g, p.slots[k])
    {
      SlotEnd(fb, p, p.slots[k]);
    }
  }

  lemma SlotEnd(fb: Screen, p: Peer, d: Region)
    requires ValidGeometry(CopyGrid(fb)) && NarrowRows(CopyGrid(fb)) && Depth(CopyGrid(fb)) && fb.height < U16_RANGE
    requires Damage.Accepted(fb.width, fb.height, d) && !Refused(fb, d)
    ensures ReadEnd(SpriteGrid(fb, p), d) == LastRowEnd(SpriteGrid(fb, p), d)
  {
    hide ReadEnd, LastRowEnd;
    SameGrid(fb, p, d);
    ReadEndOnScreen(SpriteGrid(fb, p), d, fb.height);
  }

  /** The exception is within what the server accepts: a sprite of the screen's size registered at 8 bits
      on a 32-bit screen is mapped with a quarter of the bytes that the copy of a full report reads. */
  lemma ShallowSpriteStrays(fb: Screen, env: Env)
    requires Copies(fb) && fb.bpp == 32 && fb.width > 0 && 0 < fb.height < U16_RANGE && env.memfd != -1 && env.sendOk
    ensures var r := HandleRegister(NewPeer, fb, fb.width, fb.height, 8, env);
            && r.ok && |r.peer.slots| <= DMG_SLOTS
            && var q := HandleSync(r.peer, fb, WholeOf(fb.width, fb.height), ONLY_VBLANK);
               q.ok && q.enlist && Strays(fb, q.peer)
  {
    var r := HandleRegister(NewPeer, fb, fb.width, fb.height, 8, env);
    var d := WholeOf(fb.width, fb.height);
    assert r.peer.slots == [] && Damage.Accumulate([], d) == [d];
    hide ValidGeometry, NarrowRows, Strays;
    WholeStrays(fb, HandleSync(r.peer, fb, d, ONLY_VBLANK).peer);
  }

  lemma WholeStrays(fb: Screen, p: Peer)
    requires Copies(fb) && fb.bpp == 32 && fb.width > 0 && 0 < fb.height < U16_RANGE
    requires p.width == fb.width && p.height == fb.height && p.bpp == 8
    requires p.slots == [WholeOf(fb.width, fb.height)]
    ensures Strays(fb, p)
  {
    hide ReadEnd;
    var g, d := SpriteGrid(fb, p), p.slots[0];
    SameGrid(fb, p, d);
    hide Misaligned, NarrowRows;
    WholeIsRead(g, d, fb.height);
    assert p.slots[..0 + 1] == [d] && !Refused(fb, d);
    Quarter(fb.width, fb.height);
  }

  /** The client's pitch changes neither what is refused nor how the columns are measured. */
  lemma SameGrid(fb: Screen, p: Peer, d: Region)
    requires ValidGeometry(CopyGrid(fb))
    ensures NarrowRows(CopyGrid(fb)) == NarrowRows(SpriteGrid(fb, p))
    ensures Misaligned(CopyGrid(fb), d) == Misaligned(SpriteGrid(fb, p), d)
  {
  }

  lemma Quarter(width: nat, height: nat)
    requires width > 0 && height > 0
    ensures 4 * (width * height) > width * height * 1
  {
    MulMono(1, width, height);
  }

  /** The copy of a report of the whole screen reads the whole screen's bytes. */
  lemma WholeIsRead(g: Geometry, d: Region, height: nat)
    requires ValidGeometry(g) && NarrowRows(g) && g.weight == 4 && g.width > 0 && g.width % g.align == 0
    requires g.stride == g.width * 4 && 0 < height < U16_RANGE && d == WholeOf(g.width, height)
    ensures !Misaligned(g, d) && ReadEnd(g, d) == 4 * (g.width * height)
  {
    hide Misaligned, ReadEnd, CellStart, CellEnd, NarrowRows, RowOffset;
    RefusedIff(g, d);
    CellFacts(g.align, g.width, g.width, 0);
    CellFacts(g.align, d.xmax, 0, g.width);
    ReadEndOnScreen(g, d, height);
    WholeEnd(g.width, height);
  }

  /** A sprite of the screen's depth and of whole cells never strays while its damage lies inside it. */
  lemma TidyNeverStrays(fb: Screen, p: Peer)
    requires Copies(fb) && Depth(CopyGrid(fb)) && p.bpp / 8 == fb.bpp / 8 && p.width % fb.align == 0
    requires p.width <= fb.width && p.height <= fb.height < U16_RANGE
    requires forall k :: 0 <= k < |p.slots| ==> Damage.Accepted(p.width, p.height, p.slots[k])
    ensures !Strays(fb, p)
  {
    hide CellEnd, RowOffset, Misaligned, ReadEnd;
    var g := SpriteGrid(fb, p);
    MappedRows(p.width, p.height, p.bpp / 8);
    forall k | 0 <= k < |p.slots|
      ensures ReadEnd(g, p.slots[k]) <= Mapped(p)
    {
      var d := p.slots[k];
      assert Damage.Accepted(p.width, p.height, d);
      RefusedIff(g, d);
      CellFacts(fb.align, fb.width, 0, fb.width);
      CellFacts(fb.align, d.xmax, 0, p.width);
      RowsBelow(d.ymax, p.height, EndColumn(g, d), p.width);
      ReadEndInPixels(g, d, p.width, p.height);
      ReadEndOnScreen(g, d, fb.height);
    }
  }

  lemma MappedRows(width: nat, height: nat, weight: nat)
    ensures height * (width * weight) == width * height * weight
  {
  }

  lemma RowsBelow(row: nat, height: nat, end: nat, width: nat)
    requires row < height && end <= width
    ensures row * width + end <= height * width
  {
    MulMono(row + 1, height, width);
  }

  lemma WholeEnd(width: nat, height: nat)
    requires height > 0
    ensures RowOffset(height - 1, width * 4, width * 4) == 4 * (width * height)
  {
    assert (height - 1) * (width * 4) + width * 4 == height * (width * 4);
  }

  /** The server's own report for a connected client is always accepted. */
  lemma FullscreenKeeps(c: Conn, fb: Screen)
    requires Inv(c, fb) && !c.gone && c.peer.connected
    ensures c.peer.width > 0 && c.peer.height > 0 && |c.peer.slots| <= DMG_SLOTS
    ensures var r := HandleSync(c.peer, fb, WholeOf(c.peer.width, c.peer.height), ASYNC_VBLANK);
            r.ok && r.enlist && r.peer.syncFlags.vblank
    ensures Inv(Fullscreen(c, fb), fb)
  {
    assert Unseen(Fullscreen(c, fb)) == Unseen(c);
    Damage.AccumulateCovers(c.peer.slots, WholeOf(c.peer.width, c.peer.height), fb.width, fb.height);
  }

  // ---------------------------------------------------------------------------------------
  // What it means

  /** The descriptor byte travels alone, nothing the server sent is ever lost or misread, and once
      the server connects a client, the client holds a mapping of exactly the registered size. */
  lemma DescriptorIsSafe(c: Conn, fb: Screen)
    requires Inv(c, fb) && !c.foreign
    ensures FdByte in c.toClient ==> c.toClient == [FdByte] && c.client.buf == []
    ensures c.client.mode == Draining ==> c.client.buf == [] && c.toClient == []
    ensures c.client.lost == 0 && !c.client.garbled
    ensures !c.gone && c.peer.connected ==>
              && c.client.mapping == Some((c.peer.width, c.peer.height))
              && 0 < c.peer.width <= fb.width && 0 < c.peer.height <= fb.height
  {
    assert FdByte in c.toClient ==> FdByte in Unseen(c);
    if FdByte in c.toClient {
      assert |Unseen(c)| == 1 && c.client.buf == [];
      assert Unseen(c) == c.toClient;
    }
  }

  /** A connected client is past every step of the handshake. */
  lemma PastHandshake(c: Conn, fb: Screen)
    requires Inv(c, fb) && !c.foreign && !c.gone && c.peer.connected
    ensures c.client.mode == Dispatching || c.client.mode == Stopped
  {
  }

  // ---------------------------------------------------------------------------------------
  // Waiting for vsync

  /** A running client waits for an acknowledgement, and neither is its request still on the way
      nor an acknowledgement on its way back. */
  predicate Starved(c: Conn) {
    c.client.mode != Stopped && c.client.waitVsync && !VblankQueued(c.toServer) && VsyncAck !in Unseen(c)
  }

  lemma QueuedStays(q: seq<Inbound>, m: Inbound)
    requires VblankQueued(q) || WantsVblank(m)
    ensures VblankQueued(q + [m])
  {
    if VblankQueued(q) {
      var i :| 0 <= i < |q| && WantsVblank(q[i]);
      assert WantsVblank((q + [m])[i]);
    } else {
      assert WantsVblank((q + [m])[|q|]);
    }
  }

  lemma QueuedTail(q: seq<Inbound>)
    requires VblankQueued(q) && !WantsVblank(q[0])
    ensures VblankQueued(q[1..])
  {
    var i :| 0 <= i < |q| && WantsVblank(q[i]);
    assert WantsVblank(q[1..][i - 1]);
  }

  lemma DispatchStarves(c: Conn, fb: Screen)
    requires Inv(c, fb) && !c.foreign && c.client.mode == Dispatching && c.client.buf != [] && Starved(Dispatch(c))
    ensures Starved(c)
  {
    DispatchKeeps(c, fb);
    hide Inv;
    assert Unseen(c) == [c.client.buf[0]] + Unseen(c)[1..];
  }

  lemma StartStarves(c: Conn, fb: Screen, width: nat, height: nat)
    requires c.client.mode == Dispatching && Starved(Start(c, fb, width, height))
    ensures Starved(c)
  {
    var t := Start(c, fb, width, height);
    assert Unseen(t) == Unseen(c);
    if t != c && VblankQueued(c.toServer) {
      QueuedStays(c.toServer, Register(width, height, 32));
    }
  }

  lemma RequestSyncStarves(c: Conn, d: Region, flags: SyncFlags)
    requires c.client.mode == Dispatching && Starved(RequestSync(c, d, flags))
    ensures Starved(c)
  {
    var t := RequestSync(c, d, flags);
    assert Unseen(t) == Unseen(c);
    if t != c && (VblankQueued(c.toServer) || WantsVblank(Sync(d, flags))) {
      QueuedStays(c.toServer, Sync(d, flags));
    }
  }

  /** Serving a message starves a client only if the message was its vblank request, which is then
      on record. */
  lemma ServeStarves(c: Conn, fb: Screen, env: Env)
    requires Inv(c, fb) && !c.gone && c.toServer != []
    requires Handle(c.peer, fb, c.toServer[0], env).ok && Starved(Serve(c, fb, env))
    ensures var r := Handle(c.peer, fb, c.toServer[0], env);
            || (r.enlist && r.peer.syncFlags.vblank)
            || (Starved(c) && r.deed != Some(Connected))
  {
    assert !c.foreign;
    hide Inv;
    var r := Handle(c.peer, fb, c.toServer[0], env);
    var t := Serve(c, fb, env);
    assert Unseen(t) == Unseen(c) + r.out;
    if VblankQueued(c.toServer) && !WantsVblank(c.toServer[0]) {
      QueuedTail(c.toServer);
    }
  }

  /** No step clears a recorded vblank flag. */
  lemma FlagStays(c: Conn, fb: Screen, env: Env)
    requires |c.peer.slots| <= DMG_SLOTS && c.toServer != [] && !c.gone
    requires c.peer.syncFlags.vblank
    ensures Serve(c, fb, env).peer.syncFlags.vblank
  {
    hide Damage.Accepted, Damage.Accumulate;
  }

  // ---------------------------------------------------------------------------------------
  // Handshakes that fail

  /** When the client cannot map the descriptor, or waits for it in vain, it stops without a mapping and its
      last word is a complaint. */
  lemma FailureIsReported(c: Conn, fb: Screen)
    requires Inv(c, fb) && !c.foreign && !c.gone && c.client.mode == AwaitingFd
    ensures TimeOut(c) == c.(client := c.client.(mode := Stopped), toServer := c.toServer + [Nack(11)])
    ensures c.toClient != [] ==>
              Await(c, false) == c.(client := c.client.(mode := Stopped), toServer := [Nack(10)], toClient := [])
    ensures c.client.mapping == None
  {
    assert Unseen(c) == c.client.buf + c.toClient;
    if c.toClient != [] {
      assert SentStage(c) && c.client.buf == [] && c.toClient == [FdByte] && c.toServer == [];
      assert c.toServer + [Nack(10)] == [Nack(10)] && c.toClient[1..] == [];
    }
  }

  /** A complaint is refused: the server then removes the client, whose record it leaves as it is. */
  lemma ComplaintIsRefused(c: Conn, fb: Screen, env: Env, info: nat)
    requires !c.gone && c.toServer != [] && c.toServer[0] == Nack(info) && |c.peer.slots| <= DMG_SLOTS
    ensures !Handle(c.peer, fb, c.toServer[0], env).ok
    ensures Serve(c, fb, env) == c.(toServer := c.toServer[1..])
  {
    assert c.toClient + [] == c.toClient;
  }

  /** A library client that is connected can always ask: its request goes to the end of its channel as it is, and it
      waits if it asked for a vblank. */
  lemma RequestIsQueued(c: Conn, fb: Screen, d: Region, flags: SyncFlags)
    requires Inv(c, fb) && !c.foreign && !c.gone && c.peer.connected && c.client.mode != Stopped
    ensures c.client.mode == Dispatching
    ensures var t := RequestSync(c, d, flags);
            && t.toServer == c.toServer + [Sync(d, flags)] && t.toClient == c.toClient && t.peer == c.peer
            && (t.client.waitVsync <==> c.client.waitVsync || flags.vblank)
            && t.client == c.client.(waitVsync := t.client.waitVsync)
  {
    PastHandshake(c, fb);
  }

  /** What the client makes of what it reads: an acknowledgement ends its wait, a fatal refusal or a second
      greeting stops it, another refusal does not. */
  lemma DispatchMeans(c: Conn, fb: Screen)
    requires Inv(c, fb) && !c.foreign && c.client.mode == Dispatching && c.client.buf != []
    ensures var k, m := Dispatch(c).client, c.client.buf[0];
            && (m == VsyncAck ==> k == c.client.(buf := k.buf, waitVsync := false))
            && (m == Refusal(true) ==> k == c.client.(buf := k.buf, mode := Stopped))
            && (m == Refusal(false) || m == Input ==> k == c.client.(buf := k.buf))
            && (m == RecvFd ==> k == c.client.(buf := k.buf, mode := Draining))
            && (m == ServInfo ==> if c.client.known then k == c.client.(buf := k.buf, mode := Stopped)
                                  else k == c.client.(buf := k.buf, known := true))
            && c.client.buf == [m] + k.buf
  {
    assert c.client.buf == [c.client.buf[0]] + c.client.buf[1..];
  }
}
