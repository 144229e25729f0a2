/** The whole server with all its clients (server.c, fb.c, client.c, vt.c) as a transition system:
    handshakes, the vsync credit loop, focus changes, removals, and virtual-terminal switches.

    Some clients run libspr16; the others are foreign programs that send what they like.  Kernel
    assumptions: sends and vblank requests succeed, and a removed client's poll handler goes (a
    descriptor may fail to be sent or mapped, the input devices may fail to be flushed, the
    display may not be reacquired, and a client may stop at any point). */
module Session {
  import opened Common
  import opened Blit
  import opened ClientRecord
  import opened Handshake
  import opened Lists
  import C = Conversation

  type Id = nat

  /** `screens` lists the connected clients, head focused; `syncList` is `sync_clients`; `vblanks`
      counts requested vblank events not yet delivered; `unmute` is `g_unmute_input`.
      `owed`, `missed` and `strayed` are ghost history: sync requests were dropped while the server was
      inactive and no fullscreen sync has been made since; the last fullscreen sync found
      `sync_clients` full; a copy has read outside a sprite's memory, which may have ended the program
      (what the model does from then on need not happen). */
  datatype World = World(
    fb: Screen, conns: map<Id, C.Conn>, screens: seq<Id>, syncList: seq<Id>,
    vblanks: nat, active: bool, unmute: bool, owed: bool, missed: bool, strayed: bool)

  function Start(fb: Screen): World {
    World(fb, map[], [], [], 0, true, true, false, false, false)
  }

  /** What a client program can do. */
  datatype Act =
    | Read(n: nat)
    | Dispatch
    | Drain
    | Await(mapOk: bool)
    | TimeOut
    | Stop
    | Register(width: nat, height: nat)
    | RequestSync(d: Region, flags: SyncFlags)
    | Forge(m: Inbound)

  datatype Step =
    | Accept(id: Id, foreign: bool)
    | Client(id: Id, act: Act)
    | Serve(id: Id, env: Env)
    | Drop(id: Id)
    | Update
    | Vblank(n: nat)
    | Switch
    | InputEvent(forward: bool, flushed: bool)
    | Deactivate
    | Activate(master: bool)

  /** A client action where the program can take it, otherwise nothing. */
  function Perform(c: C.Conn, fb: Screen, a: Act): C.Conn {
    if c.foreign then
      if a.Forge? then C.Forge(c, a.m) else c
    else
      var k := c.client;
      match a
      case Read(n) => if k.mode == C.Dispatching && k.buf == [] && 0 < n <= |c.toClient| then C.Read(c, n) else c
      case Dispatch => if k.mode == C.Dispatching && k.buf != [] then C.Dispatch(c) else c
      case Drain => if k.mode == C.Draining then C.Drain(c) else c
      case Await(mapOk) => if k.mode == C.AwaitingFd then C.Await(c, mapOk) else c
      case TimeOut => if k.mode == C.AwaitingFd then C.TimeOut(c) else c
      case Stop => C.Stop(c)
      case Register(width, height) => if k.mode == C.Dispatching then C.Start(c, fb, width, height) else c
      case RequestSync(d, flags) => if k.mode == C.Dispatching then C.RequestSync(c, d, flags) else c
      case Forge(_) => c
  }

  /** `add_sync_client` finds the client in the table, or a free entry. */
  predicate HasRoom(list: seq<Id>, id: Id) {
    id in list || |list| < MAX_CLIENTS
  }

  function Enlist(list: seq<Id>, id: Id): seq<Id> {
    if id !in list && HasRoom(list, id) then list + [id] else list
  }

  /** The structural part of the invariant. */
  ghost predicate Sound(w: World) {
    && (forall id :: id in w.conns ==> C.Inv(w.conns[id], w.fb))
    && Distinct(w.screens)
    && (forall id :: id in w.screens ==> id in w.conns && Shown(w.conns[id]))
    && (forall id :: id in w.conns && Shown(w.conns[id]) ==> id in w.screens)
    && Distinct(w.syncList)
    && (forall id :: id in w.syncList ==> id in w.conns)
    && |w.syncList| <= MAX_CLIENTS
  }

  predicate Shown(c: C.Conn) {
    c.peer.connected && !c.gone
  }

  /** `server_sync_fullscreen`, which ignores a full table. */
  function Resync(w: World): (t: World)
    requires Sound(w)
    ensures t.fb == w.fb && t.active == w.active && t.unmute == w.unmute && (t.owed ==> w.owed)
  {
    if w.screens == [] then w.(owed := false, missed := false)
    else
      var f := w.screens[0];
      C.FullscreenKeeps(w.conns[f], w.fb);
      w.(conns := w.conns[f := C.Fullscreen(w.conns[f], w.fb)], syncList := Enlist(w.syncList, f),
         owed := false, missed := !HasRoom(w.syncList, f))
  }

  lemma ResyncSound(w: World)
    requires Sound(w)
    ensures Sound(Resync(w)) && Resync(w).screens == w.screens
  {
    hide C.Inv;
    if w.screens != [] {
      C.FullscreenKeeps(w.conns[w.screens[0]], w.fb);
    }
  }

  /** `server_remove_client`; `c` is the client's conversation as the failing callback left it. */
  function RemoveClient(w: World, id: Id, c: C.Conn): (t: World)
    requires Sound(w) && id in w.conns && !w.conns[id].gone
    requires C.Inv(C.Remove(c), w.fb) && c.peer.connected == w.conns[id].peer.connected
    ensures t.fb == w.fb && t.active == w.active && t.unmute == w.unmute && (t.owed ==> w.owed)
  {
    var u := w.(conns := w.conns[id := C.Remove(c)], screens := Without(w.screens, id));
    TakenOut(w, id, c);
    if c.peer.connected then Resync(u) else u
  }

  lemma KeySetKept(m: map<Id, C.Conn>, id: Id, c: C.Conn)
    requires id in m
    ensures m[id := c].Keys == m.Keys && |m[id := c]| == |m|
  {
    assert m[id := c].Keys == m.Keys;
    assert |m[id := c]| == |m[id := c].Keys| && |m| == |m.Keys|;
  }

  /** Replacing one conversation, with matching screen and sync lists. */
  lemma ReplaceSound(w: World, id: Id, c: C.Conn, screens: seq<Id>, syncList: seq<Id>)
    requires Sound(w) && id in w.conns && C.Inv(c, w.fb)
    requires Distinct(screens) && Distinct(syncList)
    requires forall x :: x in screens <==> if x == id then Shown(c) else x in w.screens
    requires (forall x :: x in syncList ==> x in w.conns) && |syncList| <= MAX_CLIENTS
    ensures Sound(w.(conns := w.conns[id := c], screens := screens, syncList := syncList))
  {
    hide C.Inv, Shown;
    var t := w.(conns := w.conns[id := c], screens := screens, syncList := syncList);
    assert forall x :: x in t.conns && x != id ==> t.conns[x] == w.conns[x];
  }

  lemma ReplaceSame(w: World, id: Id, c: C.Conn)
    requires Sound(w) && id in w.conns && C.Inv(c, w.fb) && (Shown(c) <==> Shown(w.conns[id]))
    ensures Sound(w.(conns := w.conns[id := c]))
  {
    hide C.Inv, Shown;
    ReplaceSound(w, id, c, w.screens, w.syncList);
  }

  /** A removed client leaves its screen. */
  lemma TakenOut(w: World, id: Id, c: C.Conn)
    requires Sound(w) && id in w.conns && C.Inv(C.Remove(c), w.fb)
    ensures Sound(w.(conns := w.conns[id := C.Remove(c)], screens := Without(w.screens, id)))
  {
    hide C.Inv;
    WithoutFacts(w.screens, id);
    ReplaceSound(w, id, C.Remove(c), Without(w.screens, id), w.syncList);
  }

  /** How serving one message changes who is on screen. */
  lemma ServeShows(c: C.Conn, fb: Screen, env: Env)
    requires !c.gone && c.toServer != [] && |c.peer.slots| <= DMG_SLOTS
    ensures var r := Handle(c.peer, fb, c.toServer[0], env);
            var t := C.Serve(c, fb, env);
            && (!r.ok || r.enlist ==> t.peer.connected == c.peer.connected)
            && (r.deed == Some(Connected) ==> r.ok)
            && (r.ok ==> (Shown(t) <==> Shown(c) || r.deed == Some(Connected)))
            && (Coherent(c.peer) && r.deed == Some(Connected) ==> !Shown(c))
  {
  }

  /** A client whose message is refused, or whose sync finds the table full, is removed. */
  predicate Dropped(w: World, id: Id, r: Result) {
    !r.ok || (r.enlist && !HasRoom(w.syncList, id))
  }

  lemma DroppedIsSound(c: C.Conn, fb: Screen, env: Env)
    requires C.Inv(c, fb) && !c.gone && c.toServer != []
    requires var r := Handle(c.peer, fb, c.toServer[0], env); !r.ok || r.enlist
    ensures C.Inv(C.Remove(C.Serve(c, fb, env)), fb)
  {
    assert |c.peer.slots| <= DMG_SLOTS;
    hide C.Inv, C.Remove, Handle;
    C.ServeKeeps(c, fb, env);
    if Handle(c.peer, fb, c.toServer[0], env).ok {
      C.RemoveKeeps(C.Serve(c, fb, env), fb);
    }
  }

  /** One message of the callback of client `id`. */
  function ServeStep(w: World, id: Id, env: Env): (t: World)
    requires Sound(w) && id in w.conns && !w.conns[id].gone && w.conns[id].toServer != []
    ensures t.fb == w.fb && t.active == w.active && t.unmute == w.unmute && (t.owed ==> w.owed)
  {
    var c := w.conns[id];
    var r := Handle(c.peer, w.fb, c.toServer[0], env);
    ServeShows(c, w.fb, env);
    if Dropped(w, id, r) then
      DroppedIsSound(c, w.fb, env);
      RemoveClient(w, id, C.Serve(c, w.fb, env))
    else
      w.(conns := w.conns[id := C.Serve(c, w.fb, env)],
         screens := if r.deed == Some(Connected) then w.screens + [id] else w.screens,
         syncList := if r.enlist then Enlist(w.syncList, id) else w.syncList)
  }

  /** The flags the pending syncs were made with. */
  function FlagsOf(w: World, list: seq<Id>): seq<SyncFlags>
    requires forall id :: id in list ==> id in w.conns
  {
    seq(|list|, i requires 0 <= i < |list| => w.conns[list[i]].peer.syncFlags)
  }

  /** `spr16_server_update` after its poll: pending syncs, then the deferred frees. */
  function UpdateStep(w: World): World
    requires Sound(w)
  {
    w.(conns := map id | id in w.conns && !w.conns[id].gone :: w.conns[id],
       syncList := [],
       vblanks := w.vblanks + if w.active then Requests(FlagsOf(w, w.syncList)) else 0,
       owed := w.owed || (!w.active && w.syncList != []))
  }

  function PushFocused(w: World, m: Outbound): (t: World)
    requires forall id :: id in w.screens ==> id in w.conns
    ensures t.fb == w.fb && t.active == w.active && t.unmute == w.unmute && (t.owed ==> w.owed)
  {
    if w.screens == [] then w
    else w.(conns := w.conns[w.screens[0] := C.Push(w.conns[w.screens[0]], m)])
  }

  lemma PushSound(w: World, m: Outbound)
    requires Sound(w) && (m == VsyncAck || m == Input)
    ensures Sound(PushFocused(w, m))
  {
    hide C.Inv;
    if w.screens != [] {
      C.PushKeeps(w.conns[w.screens[0]], w.fb, m);
      ReplaceSame(w, w.screens[0], C.Push(w.conns[w.screens[0]], m));
    }
  }

  lemma RotateDistinct(s: seq<Id>)
    requires Distinct(s) && s != []
    ensures Distinct(s[1..] + [s[0]]) && forall x :: x in s[1..] + [s[0]] <==> x in s
  {
    assert s == [s[0]] + s[1..];
  }

  /** `update_state`: a pending resynchronisation is given up when a device cannot be flushed. */
  function UpdateState(w: World, flushed: bool): (t: World)
    requires Sound(w)
    ensures t.fb == w.fb && t.active == w.active && (t.owed ==> w.owed)
  {
    if !w.unmute then w
    else
      PushSound(w, Input);
      var u := PushFocused(w, Input).(unmute := false);
      if flushed then Resync(u) else u
  }

  /** An input event: `update_state`, then the event is forwarded or not; `flushed` is the answer of
      `input_flush_all_devices`. */
  function InputStep(w: World, forward: bool, flushed: bool): (t: World)
    requires Sound(w)
    ensures t.fb == w.fb && t.active == w.active && (t.owed ==> w.owed)
  {
    UpdateStateSound(w, flushed);
    if forward then PushFocused(UpdateState(w, flushed), Input) else UpdateState(w, flushed)
  }

  lemma UpdateStateSound(w: World, flushed: bool)
    requires Sound(w)
    ensures Sound(UpdateState(w, flushed))
  {
    hide C.Inv, Resync, PushFocused, Shown;
    if w.unmute {
      PushSound(w, Input);
      if flushed {
        ResyncSound(PushFocused(w, Input).(unmute := false));
      }
    }
  }

  /** `main_screen_switch(-1)`; the new focus is told to reset its input. */
  function SwitchStep(w: World): (t: World)
    requires Sound(w)
    ensures t.fb == w.fb && t.active == w.active && t.unmute == w.unmute && (t.owed ==> w.owed)
  {
    if |w.screens| < 2 then w
    else
      RotateDistinct(w.screens);
      var u := w.(screens := w.screens[1..] + [w.screens[0]]);
      ResyncSound(u);
      PushFocused(Resync(u), Input)
  }

  function AcceptStep(w: World, id: Id, foreign: bool): World {
    if id in w.conns then w else w.(conns := w.conns[id := C.NewConn.(foreign := foreign)])
  }

  function ClientStep(w: World, id: Id, act: Act): World {
    if id in w.conns then w.(conns := w.conns[id := Perform(w.conns[id], w.fb, act)]) else w
  }

  /** The callback of client `id`, when there is a message for it. */
  function CallbackStep(w: World, id: Id, env: Env): (t: World)
    requires Sound(w)
    ensures t.fb == w.fb && t.active == w.active && t.unmute == w.unmute && (t.owed ==> w.owed)
  {
    if id in w.conns && !w.conns[id].gone && w.conns[id].toServer != [] then ServeStep(w, id, env) else w
  }

  /** The connection is closed. */
  function DropStep(w: World, id: Id): (t: World)
    requires Sound(w)
    ensures t.fb == w.fb && t.active == w.active && t.unmute == w.unmute && (t.owed ==> w.owed)
  {
    if id in w.conns && !w.conns[id].gone then
      C.RemoveKeeps(w.conns[id], w.fb);
      RemoveClient(w, id, w.conns[id])
    else w
  }

  function FlushFocused(w: World): (t: World)
    requires forall id :: id in w.screens ==> id in w.conns
    ensures t.fb == w.fb && t.active == w.active && t.unmute == w.unmute && (t.owed ==> w.owed)
  {
    if w.screens == [] then w
    else w.(conns := w.conns[w.screens[0] := C.Flush(w.conns[w.screens[0]], w.fb)])
  }

  /** One callback of the display, for one or more vblank events. */
  function VblankStep(w: World, n: nat): (t: World)
    requires Sound(w)
    ensures t.fb == w.fb && t.active == w.active && t.unmute == w.unmute && (t.owed ==> w.owed)
  {
    if 0 < n <= w.vblanks then FlushFocused(Fewer(w, n)) else w
  }

  /** The vblank events are over; the copies that follow may leave the sprite's memory. */
  function Fewer(w: World, n: nat): World
    requires n <= w.vblanks && forall id :: id in w.screens ==> id in w.conns
  {
    w.(vblanks := w.vblanks - n, strayed := w.strayed || Strays(w))
  }

  /** The copies for the focused client read outside its sprite's memory. */
  predicate Strays(w: World)
    requires forall id :: id in w.screens ==> id in w.conns
  {
    w.screens != [] && C.Strays(w.fb, w.conns[w.screens[0]].peer)
  }

  function Next(w: World, e: Step): World
    requires Sound(w)
  {
    match e
    case Accept(id, foreign) => AcceptStep(w, id, foreign)
    case Client(id, act) => ClientStep(w, id, act)
    case Serve(id, env) => CallbackStep(w, id, env)
    case Drop(id) => DropStep(w, id)
    case Update => UpdateStep(w)
    case Vblank(n) => VblankStep(w, n)
    case Switch => SwitchStep(w)
    case InputEvent(forward, flushed) => InputStep(w, forward, flushed)
    case Deactivate => w.(active := false)
    case Activate(master) => w.(active := w.active || master, unmute := true)
  }

  // ---------------------------------------------------------------------------------------
  // The invariant: structure, and no lost wake-up

  predicate OnRecord(w: World, id: Id)
    requires id in w.conns
  {
    id in w.syncList && w.conns[id].peer.syncFlags.vblank
  }

  /** If the focused client waits with nothing of its own in flight, its request is on record, or a
      vblank event is on its way, or requests were dropped while the server was inactive, or the last
      fullscreen sync found the table full; on a screen that refuses no copy. */
  ghost predicate Wake(w: World)
    requires Sound(w)
  {
    C.Copies(w.fb) && w.screens != [] && C.Starved(w.conns[w.screens[0]]) ==>
      OnRecord(w, w.screens[0]) || w.vblanks > 0 || w.owed || w.missed
  }

  ghost predicate Inv(w: World) {
    Sound(w) && Wake(w)
  }

  lemma RemoveSound(w: World, id: Id, c: C.Conn)
    requires Inv(w) && id in w.conns && !w.conns[id].gone
    requires C.Inv(C.Remove(c), w.fb) && c.peer.connected == w.conns[id].peer.connected
    ensures Inv(RemoveClient(w, id, c))
  {
    hide C.Inv;
    var t := w.(conns := w.conns[id := C.Remove(c)], screens := Without(w.screens, id));
    TakenOut(w, id, c);
    if c.peer.connected {
      ResyncInv(t);
    } else {
      WithoutAbsent(w.screens, id);
    }
  }

  lemma ResyncInv(w: World)
    requires Sound(w)
    ensures Inv(Resync(w))
    ensures w.screens != [] ==> OnRecord(Resync(w), w.screens[0]) || Resync(w).missed
    ensures Resync(w).conns.Keys == w.conns.Keys
    ensures Resync(w).screens == w.screens && Resync(w).active == w.active && Resync(w).unmute == w.unmute
    ensures !Resync(w).owed
  {
    hide C.Inv, C.Starved, HandleSync;
    ResyncSound(w);
    if w.screens != [] {
      C.FullscreenKeeps(w.conns[w.screens[0]], w.fb);
    }
  }

  lemma AddSound(w: World, id: Id, c: C.Conn)
    requires Inv(w) && id !in w.conns && C.Inv(c, w.fb) && !Shown(c)
    ensures Inv(w.(conns := w.conns[id := c]))
  {
    hide C.Inv, C.Starved;
    var t := w.(conns := w.conns[id := c]);
    assert forall x :: x in w.conns ==> t.conns[x] == w.conns[x];
    assert id !in w.screens;
  }

  lemma AcceptKeeps(w: World, id: Id, foreign: bool)
    requires Inv(w)
    ensures Inv(AcceptStep(w, id, foreign))
  {
    hide C.Inv;
    if id !in w.conns {
      C.NewKeeps(w.fb, foreign);
      AddSound(w, id, C.NewConn.(foreign := foreign));
    }
  }

  lemma PerformKeeps(c: C.Conn, fb: Screen, a: Act)
    requires C.Inv(c, fb)
    ensures C.Inv(Perform(c, fb, a), fb)
    ensures Perform(c, fb, a).peer == c.peer && Perform(c, fb, a).gone == c.gone
    ensures Shown(c) && C.Starved(Perform(c, fb, a)) ==> C.Starved(c)
  {
    hide C.Inv, C.Starved, Perform;
    if c.foreign {
      ForeignKeeps(c, fb, a);
    } else {
      LibraryKeeps(c, fb, a);
      if Shown(c) && C.Starved(Perform(c, fb, a)) {
        LibraryStarves(c, fb, a);
      }
    }
  }

  lemma LibraryKeeps(c: C.Conn, fb: Screen, a: Act)
    requires C.Inv(c, fb) && !c.foreign
    ensures C.Inv(Perform(c, fb, a), fb)
    ensures Perform(c, fb, a).peer == c.peer && Perform(c, fb, a).gone == c.gone
  {
    hide C.Inv, C.Unseen;
    var k := c.client;
    match a
    case Read(n) =>
      if k.mode == C.Dispatching && k.buf == [] && 0 < n <= |c.toClient| {
        C.ReadKeeps(c, fb, n);
      }
    case Dispatch =>
      if k.mode == C.Dispatching && k.buf != [] {
        C.DispatchKeeps(c, fb);
      }
    case Drain =>
      if k.mode == C.Draining {
        C.DrainKeeps(c, fb);
      }
    case Await(mapOk) =>
      if k.mode == C.AwaitingFd {
        C.AwaitKeeps(c, fb, mapOk);
      }
    case TimeOut =>
      if k.mode == C.AwaitingFd {
        C.TimeOutKeeps(c, fb);
      }
    case Stop => C.StopKeeps(c, fb);
    case Register(width, height) =>
      if k.mode == C.Dispatching {
        C.StartKeeps(c, fb, width, height);
      }
    case RequestSync(d, flags) =>
      if k.mode == C.Dispatching {
        C.RequestSyncKeeps(c, fb, d, flags);
      }
    case Forge(_) =>
  }

  /** Nothing a library client does leaves it waiting with nothing in flight. */
  lemma LibraryStarves(c: C.Conn, fb: Screen, a: Act)
    requires C.Inv(c, fb) && !c.foreign && Shown(c) && C.Starved(Perform(c, fb, a))
    ensures C.Starved(c)
  {
    C.PastHandshake(c, fb);
    hide C.Inv;
    var k := c.client;
    match a
    case Read(n) =>
      if k.mode == C.Dispatching && k.buf == [] && 0 < n <= |c.toClient| {
        C.ReadKeeps(c, fb, n);
      }
    case Dispatch =>
      if k.mode == C.Dispatching && k.buf != [] {
        C.DispatchStarves(c, fb);
      }
    case Register(width, height) =>
      if k.mode == C.Dispatching {
        C.StartStarves(c, fb, width, height);
      }
    case RequestSync(d, flags) =>
      if k.mode == C.Dispatching {
        C.RequestSyncStarves(c, d, flags);
      }
    case _ =>
  }

  /** A foreign client is never waited for. */
  lemma ForeignKeeps(c: C.Conn, fb: Screen, a: Act)
    requires C.Inv(c, fb) && c.foreign
    ensures C.Inv(Perform(c, fb, a), fb)
    ensures Perform(c, fb, a).peer == c.peer && Perform(c, fb, a).gone == c.gone
    ensures !C.Starved(c) && !C.Starved(Perform(c, fb, a))
  {
    if a.Forge? {
      C.ForgeKeeps(c, fb, a.m);
    }
  }

  lemma ClientKeeps(w: World, id: Id, a: Act)
    requires Inv(w)
    ensures Inv(ClientStep(w, id, a))
  {
    hide C.Inv, C.Starved, Perform;
    if id in w.conns {
      PerformKeeps(w.conns[id], w.fb, a);
      ReplaceSame(w, id, Perform(w.conns[id], w.fb, a));
    }
  }

  lemma EnlistDistinct(list: seq<Id>, id: Id)
    requires Distinct(list)
    ensures Distinct(Enlist(list, id))
    ensures forall x :: x in Enlist(list, id) <==> x in list || (x == id && HasRoom(list, id))
    ensures |list| <= MAX_CLIENTS ==> |Enlist(list, id)| <= MAX_CLIENTS
  {
  }

  lemma ServeSound(w: World, id: Id, env: Env)
    requires Inv(w) && id in w.conns && !w.conns[id].gone && w.conns[id].toServer != []
    requires !Dropped(w, id, Handle(w.conns[id].peer, w.fb, w.conns[id].toServer[0], env))
    ensures Sound(ServeStep(w, id, env))
  {
    var c := w.conns[id];
    var r := Handle(c.peer, w.fb, c.toServer[0], env);
    C.ServeKeeps(c, w.fb, env);
    ServeShows(c, w.fb, env);
    EnlistDistinct(w.syncList, id);
    var t := ServeStep(w, id, env);
    assert r.deed == Some(Connected) ==> id !in w.screens;
    ReplaceSound(w, id, C.Serve(c, w.fb, env), t.screens, t.syncList);
    assert t == w.(conns := w.conns[id := C.Serve(c, w.fb, env)], screens := t.screens, syncList := t.syncList);
  }

  lemma ServeKeeps(w: World, id: Id, env: Env)
    requires Inv(w)
    ensures Inv(CallbackStep(w, id, env))
  {
    if id in w.conns && !w.conns[id].gone && w.conns[id].toServer != [] {
      var c := w.conns[id];
      var r := Handle(c.peer, w.fb, c.toServer[0], env);
      ServeShows(c, w.fb, env);
      if Dropped(w, id, r) {
        DroppedIsSound(c, w.fb, env);
        RemoveSound(w, id, C.Serve(c, w.fb, env));
      } else {
        ServeSound(w, id, env);
        ServeWakes(w, id, env);
      }
    }
  }

  lemma ServeWakes(w: World, id: Id, env: Env)
    requires Inv(w) && id in w.conns && !w.conns[id].gone && w.conns[id].toServer != []
    requires !Dropped(w, id, Handle(w.conns[id].peer, w.fb, w.conns[id].toServer[0], env))
    requires Sound(ServeStep(w, id, env))
    ensures Wake(ServeStep(w, id, env))
  {
    var c := w.conns[id];
    assert C.Inv(c, w.fb) && |c.peer.slots| <= DMG_SLOTS;
    hide C.Inv, Sound, C.Starved, Handle, C.Serve;
    var r := Handle(c.peer, w.fb, c.toServer[0], env);
    var t := ServeStep(w, id, env);
    EnlistDistinct(w.syncList, id);
    if t.screens != [] && C.Starved(t.conns[t.screens[0]]) {
      var f := t.screens[0];
      if f == id {
        C.ServeStarves(c, w.fb, env);
        ServedPeer(c, w.fb, env);
        if w.screens != [] && OnRecord(w, f) {
          C.FlagStays(c, w.fb, env);
        }
      }
    }
  }

  lemma ServedPeer(c: C.Conn, fb: Screen, env: Env)
    requires !c.gone && c.toServer != [] && |c.peer.slots| <= DMG_SLOTS
    ensures C.Serve(c, fb, env).peer == Handle(c.peer, fb, c.toServer[0], env).peer
  {
  }

  lemma {:induction false} RequestsPositive(flags: seq<SyncFlags>, i: nat)
    requires i < |flags| && flags[i].vblank
    ensures Requests(flags) > 0
  {
    if i < |flags| - 1 {
      RequestsPositive(flags[..|flags| - 1], i);
    }
  }

  /** A vblank request on record is counted. */
  lemma RecordCounts(w: World, id: Id)
    requires (forall x :: x in w.syncList ==> x in w.conns) && id in w.conns && OnRecord(w, id)
    ensures Requests(FlagsOf(w, w.syncList)) > 0
  {
    var i :| 0 <= i < |w.syncList| && w.syncList[i] == id;
    RequestsPositive(FlagsOf(w, w.syncList), i);
  }

  lemma UpdateKeeps(w: World)
    requires Inv(w)
    ensures Inv(UpdateStep(w))
  {
    hide C.Inv;
    var t := UpdateStep(w);
    if t.screens != [] && C.Starved(t.conns[t.screens[0]]) && OnRecord(w, w.screens[0]) {
      RecordCounts(w, w.screens[0]);
    }
  }

  lemma VblankKeeps(w: World, n: nat)
    requires Inv(w)
    ensures Inv(VblankStep(w, n))
  {
    hide Wake, FlushFocused;
    FewerVblanks(w, n);
    hide Sound;
    if 0 < n <= w.vblanks {
      FocusAwake(Fewer(w, n));
    }
  }

  lemma FewerVblanks(w: World, n: nat)
    requires Sound(w)
    ensures (forall id :: id in w.screens ==> id in w.conns) && (n <= w.vblanks ==> Sound(Fewer(w, n)))
  {
    hide C.Inv, Shown;
  }

  lemma FocusAwake(w: World)
    requires Sound(w)
    ensures Inv(FlushFocused(w))
  {
    FlushSound(w);
    hide Sound, C.Starved, C.Unseen, C.Flush, C.Copies;
    if w.screens != [] && C.Copies(w.fb) {
      FocusedIsSound(w);
      FlushArrives(w);
    }
  }

  lemma FlushSound(w: World)
    requires Sound(w)
    ensures Sound(FlushFocused(w)) && FlushFocused(w).screens == w.screens
  {
    hide C.Inv, C.Flush, C.Unseen;
    if w.screens != [] {
      C.FlushKeeps(w.conns[w.screens[0]], w.fb);
      FlushedShown(w.conns[w.screens[0]], w.fb);
      ReplaceSame(w, w.screens[0], C.Flush(w.conns[w.screens[0]], w.fb));
    }
  }

  lemma FocusedIsSound(w: World)
    requires Sound(w) && w.screens != []
    ensures (forall id :: id in w.screens ==> id in w.conns) && C.Inv(w.conns[w.screens[0]], w.fb)
  {
  }

  lemma FlushedShown(c: C.Conn, fb: Screen)
    ensures Shown(C.Flush(c, fb)) <==> Shown(c)
  {
  }

  /** An input message to the focused client changes nothing that matters here. */
  lemma PushInputKeeps(w: World)
    requires Inv(w)
    ensures Inv(PushFocused(w, Input)) && PushFocused(w, Input).screens == w.screens
    ensures PushFocused(w, Input).syncList == w.syncList && PushFocused(w, Input).owed == w.owed
    ensures PushFocused(w, Input).missed == w.missed && PushFocused(w, Input).conns.Keys == w.conns.Keys
  {
    hide C.Inv;
    PushSound(w, Input);
    if w.screens != [] {
      var c := w.conns[w.screens[0]];
      assert C.Unseen(C.Push(c, Input)) == C.Unseen(c) + [Input];
    }
  }

  lemma SwitchKeeps(w: World)
    requires Inv(w)
    ensures Inv(SwitchStep(w))
  {
    hide C.Inv, Resync, PushFocused, Wake, Shown;
    if |w.screens| >= 2 {
      RotateDistinct(w.screens);
      var t := w.(screens := w.screens[1..] + [w.screens[0]]);
      assert Sound(t);
      hide Sound;
      ResyncInv(t);
      PushInputKeeps(Resync(t));
    }
  }

  /** A switch turns the list of screens by one. */
  lemma SwitchTurns(w: World)
    requires Inv(w)
    ensures Next(w, Switch).screens == Turn(w.screens)
  {
    hide C.Inv, Sound, Wake, Shown;
    if |w.screens| >= 2 {
      assert Sound(w);
    }
  }

  lemma InputKeeps(w: World, forward: bool, flushed: bool)
    requires Inv(w)
    ensures Inv(InputStep(w, forward, flushed))
  {
    hide C.Inv, UpdateState, PushFocused, Sound, Wake;
    UpdateStateKeeps(w, flushed);
    PushInputKeeps(UpdateState(w, flushed));
  }

  lemma UpdateStateKeeps(w: World, flushed: bool)
    requires Inv(w)
    ensures Inv(UpdateState(w, flushed)) && UpdateState(w, flushed).conns.Keys == w.conns.Keys
    ensures |w.conns| <= MAX_CLIENTS && !w.missed ==> !UpdateState(w, flushed).missed
    ensures !w.unmute || !flushed ==> UpdateState(w, flushed).owed == w.owed
    ensures w.unmute && flushed ==> !UpdateState(w, flushed).owed
    ensures w.unmute ==> !UpdateState(w, flushed).unmute
  {
    hide C.Inv, Resync, PushFocused, C.Starved, OnRecord;
    if w.unmute {
      PushInputKeeps(w);
      var u := PushFocused(w, Input).(unmute := false);
      Muted(PushFocused(w, Input));
      if flushed {
        ResyncInv(u);
        if |w.conns| <= MAX_CLIENTS && !w.missed {
          SameSize(u.conns, w.conns);
          ResyncRoom(u);
        }
      }
    }
  }

  lemma Muted(w: World)
    requires Inv(w)
    ensures Inv(w.(unmute := false))
  {
    hide C.Inv, C.Starved;
  }

  lemma DropKeeps(w: World, id: Id)
    requires Inv(w)
    ensures Inv(DropStep(w, id))
  {
    hide C.Inv, C.Starved, C.Remove;
    if id in w.conns && !w.conns[id].gone {
      C.RemoveKeeps(w.conns[id], w.fb);
      RemoveSound(w, id, w.conns[id]);
    }
  }

  lemma NextKeeps(w: World, e: Step)
    requires Inv(w)
    ensures Inv(Next(w, e))
  {
    hide C.Inv, AcceptStep, ClientStep, CallbackStep, DropStep, UpdateStep, VblankStep, SwitchStep, InputStep, C.Starved;
    match e
    case Accept(id, foreign) => AcceptKeeps(w, id, foreign);
    case Client(id, act) => ClientKeeps(w, id, act);
    case Serve(id, env) => ServeKeeps(w, id, env);
    case Drop(id) => DropKeeps(w, id);
    case Update => UpdateKeeps(w);
    case Vblank(n) => VblankKeeps(w, n);
    case Switch => SwitchKeeps(w);
    case InputEvent(forward, flushed) => InputKeeps(w, forward, flushed);
    case Deactivate =>
    case Activate(_) =>
  }

  // ---------------------------------------------------------------------------------------
  // Runs

  /** The state after any series of steps. */
  ghost function Run(fb: Screen, es: seq<Step>): (w: World)
    ensures Inv(w)
  {
    if es == [] then Start(fb)
    else
      NextKeeps(Run(fb, es[..|es| - 1]), es[|es| - 1]);
      Next(Run(fb, es[..|es| - 1]), es[|es| - 1])
  }

  /** If the focused client is running and waits for vsync, its request is still in its channel, or in
      the sync list, or a vblank event is pending, or an acknowledgement is on its way; unless
      requests were dropped during a virtual-terminal switch, in which case the server is
      inactive or will resync at the next input event that finds it active. */
  ghost predicate Awake(w: World)
    requires Sound(w)
  {
    w.screens != [] ==>
      var f := w.screens[0];
      var c := w.conns[f];
      c.client.mode != C.Stopped && c.client.waitVsync ==>
        || C.VblankQueued(c.toServer)
        || OnRecord(w, f)
        || w.vblanks > 0
        || VsyncAck in C.Unseen(c)
        || (w.owed && (!w.active || w.unmute))
  }

  /** The server never holds more than `n` clients at a time. */
  ghost predicate Within(fb: Screen, es: seq<Step>, n: nat) {
    |Run(fb, es).conns| <= n && (es != [] ==> Within(fb, es[..|es| - 1], n))
  }

  /** The server is back, requests have been dropped, and the resynchronisation is given up. */
  predicate GivesUp(w: World, e: Step) {
    e.InputEvent? && !e.flushed && w.active && w.unmute && w.owed
  }

  /** No resynchronisation that is due is given up. */
  ghost predicate ResyncsSucceed(fb: Screen, es: seq<Step>) {
    es != [] ==>
      && ResyncsSucceed(fb, es[..|es| - 1])
      && !GivesUp(Run(fb, es[..|es| - 1]), es[|es| - 1])
  }

  /** No wake-up is lost: in any reachable state of a server with at most 128 clients, whatever the
      foreign ones send, on a screen whose width is a whole number of grid cells, as long as no
      resynchronisation that is due is given up. */
  lemma NoLostWakeUp(fb: Screen, es: seq<Step>)
    requires C.Copies(fb) && Within(fb, es, MAX_CLIENTS) && ResyncsSucceed(fb, es)
    ensures Awake(Run(fb, es))
  {
    SameScreen(fb, es);
    NeverMissed(fb, es);
    OwedIsDue(fb, es);
  }

  /** What was dropped will be made good: the server is away, or resynchronises at the next input event. */
  lemma {:induction false} OwedIsDue(fb: Screen, es: seq<Step>)
    requires ResyncsSucceed(fb, es)
    ensures var w := Run(fb, es); w.owed ==> !w.active || w.unmute
  {
    if es != [] {
      OwedIsDue(fb, es[..|es| - 1]);
      DueAtStep(Run(fb, es[..|es| - 1]), es[|es| - 1]);
    }
  }

  lemma DueAtStep(w: World, e: Step)
    requires Inv(w) && (w.owed ==> !w.active || w.unmute) && !GivesUp(w, e)
    ensures var t := Next(w, e); t.owed ==> !t.active || t.unmute
  {
    hide C.Inv, Sound, Wake, Requests, CallbackStep, DropStep, VblankStep, SwitchStep, InputStep, Perform;
    match e
    case InputEvent(forward, flushed) => DueAtInput(w, forward, flushed);
    case _ =>
  }

  lemma DueAtInput(w: World, forward: bool, flushed: bool)
    requires Inv(w) && (w.owed ==> !w.active || w.unmute) && !GivesUp(w, InputEvent(forward, flushed))
    ensures var t := InputStep(w, forward, flushed); t.owed ==> !t.active || t.unmute
  {
    hide C.Inv, UpdateState, Sound, Wake;
    UpdateStateKeeps(w, flushed);
  }

  /** With at most 128 clients a fullscreen sync always finds room. */
  lemma {:induction false} NeverMissed(fb: Screen, es: seq<Step>)
    requires Within(fb, es, MAX_CLIENTS)
    ensures !Run(fb, es).missed
  {
    if es != [] {
      NeverMissed(fb, es[..|es| - 1]);
      RoomAtStep(Run(fb, es[..|es| - 1]), es[|es| - 1]);
    }
  }

  lemma RoomFor(w: World, id: Id)
    requires Sound(w) && |w.conns| <= MAX_CLIENTS && id in w.conns
    ensures HasRoom(w.syncList, id)
  {
    hide C.Inv;
    if id !in w.syncList {
      DistinctFits(w.syncList, w.conns.Keys, id);
      assert |w.conns| == |w.conns.Keys|;
    }
  }

  lemma ResyncRoom(w: World)
    requires Sound(w) && |w.conns| <= MAX_CLIENTS
    ensures !Resync(w).missed
  {
    hide C.Inv;
    if w.screens != [] {
      RoomFor(w, w.screens[0]);
    }
  }

  lemma RemoveRoom(w: World, id: Id, c: C.Conn)
    requires Sound(w) && id in w.conns && !w.conns[id].gone && |w.conns| <= MAX_CLIENTS && !w.missed
    requires C.Inv(C.Remove(c), w.fb) && c.peer.connected == w.conns[id].peer.connected
    ensures !RemoveClient(w, id, c).missed
  {
    hide C.Inv;
    var t := w.(conns := w.conns[id := C.Remove(c)], screens := Without(w.screens, id));
    WithoutFacts(w.screens, id);
    KeySetKept(w.conns, id, C.Remove(c));
    ReplaceSound(w, id, C.Remove(c), t.screens, w.syncList);
    hide Sound, Resync;
    if c.peer.connected {
      ResyncRoom(t);
    }
  }

  lemma SwitchRoom(w: World)
    requires Inv(w) && |w.conns| <= MAX_CLIENTS && !w.missed
    ensures !SwitchStep(w).missed
  {
    hide C.Inv, Resync, PushFocused, Wake, Shown;
    if |w.screens| >= 2 {
      RotateDistinct(w.screens);
      var t := w.(screens := w.screens[1..] + [w.screens[0]]);
      assert Sound(t);
      hide Sound;
      ResyncRoom(t);
      ResyncInv(t);
      PushInputKeeps(Resync(t));
    }
  }

  lemma InputRoom(w: World, forward: bool, flushed: bool)
    requires Inv(w) && |w.conns| <= MAX_CLIENTS && !w.missed
    ensures !InputStep(w, forward, flushed).missed
  {
    hide C.Inv, UpdateState, PushFocused, Sound, Wake;
    UpdateStateKeeps(w, flushed);
    PushInputKeeps(UpdateState(w, flushed));
  }

  lemma SameSize(a: map<Id, C.Conn>, b: map<Id, C.Conn>)
    requires a.Keys == b.Keys
    ensures |a| == |b|
  {
    assert |a| == |a.Keys| && |b| == |b.Keys|;
  }

  lemma RoomAtStep(w: World, e: Step)
    requires Inv(w) && |w.conns| <= MAX_CLIENTS && !w.missed
    ensures !Next(w, e).missed
  {
    hide C.Inv, SwitchStep, InputStep, RemoveClient, Handle, Sound, Wake, Perform, FlagsOf, Requests, C.Flush;
    match e
    case Serve(id, env) =>
      if id in w.conns && !w.conns[id].gone && w.conns[id].toServer != [] {
        var c := w.conns[id];
        ServeRoom(w, id, env);
      }
    case Drop(id) =>
      if id in w.conns && !w.conns[id].gone {
        DropRoom(w, id);
      }
    case Switch => SwitchRoom(w);
    case InputEvent(forward, flushed) => InputRoom(w, forward, flushed);
    case _ =>
  }

  lemma ServeRoom(w: World, id: Id, env: Env)
    requires Sound(w) && |w.conns| <= MAX_CLIENTS && !w.missed
    requires id in w.conns && !w.conns[id].gone && w.conns[id].toServer != []
    ensures !ServeStep(w, id, env).missed
  {
    hide RemoveClient, Handle;
    var c := w.conns[id];
    if Dropped(w, id, Handle(c.peer, w.fb, c.toServer[0], env)) {
      ServeShows(c, w.fb, env);
      DroppedIsSound(c, w.fb, env);
      RemoveRoom(w, id, C.Serve(c, w.fb, env));
    }
  }

  lemma DropRoom(w: World, id: Id)
    requires Sound(w) && |w.conns| <= MAX_CLIENTS && !w.missed && id in w.conns && !w.conns[id].gone
    ensures !DropStep(w, id).missed
  {
    hide RemoveClient;
    C.RemoveKeeps(w.conns[id], w.fb);
    RemoveRoom(w, id, w.conns[id]);
  }

  lemma {:induction false} SameScreen(fb: Screen, es: seq<Step>)
    ensures Run(fb, es).fb == fb
  {
    if es != [] {
      SameScreen(fb, es[..|es| - 1]);
      NextScreen(Run(fb, es[..|es| - 1]), es[|es| - 1]);
    }
  }

  lemma NextScreen(w: World, e: Step)
    requires Inv(w)
    ensures Next(w, e).fb == w.fb
  {
    hide C.Inv, Sound, Wake, Requests, CallbackStep, DropStep, VblankStep, SwitchStep, InputStep, Perform;
  }

  lemma ActiveStays(w: World, e: Step)
    requires Inv(w) && w.active && !w.owed && e != Deactivate
    ensures Next(w, e).active && !Next(w, e).owed
  {
    hide C.Inv, Sound, Wake, Requests, CallbackStep, DropStep, VblankStep, SwitchStep, InputStep, Perform;
  }

  /** A server that is never deactivated drops nothing. */
  lemma {:induction false} ActiveOwesNothing(fb: Screen, es: seq<Step>)
    requires forall i :: 0 <= i < |es| ==> es[i] != Deactivate
    ensures Run(fb, es).active && !Run(fb, es).owed
  {
    if es != [] {
      var w, e := Run(fb, es[..|es| - 1]), es[|es| - 1];
      ActiveOwesNothing(fb, es[..|es| - 1]);
      ActiveStays(w, e);
    }
  }

  /** In every reachable state and for every library client, whatever it registers and however often,
      and whatever foreign clients do beside it: the descriptor byte travels alone, the drain loses
      nothing, the buffer is never misread, and a connected client holds a mapping of exactly the size
      the server registered. */
  lemma HandshakeIsSafe(fb: Screen, es: seq<Step>, id: Id)
    requires id in Run(fb, es).conns && !Run(fb, es).conns[id].foreign
    ensures var c := Run(fb, es).conns[id];
            && (FdByte in c.toClient ==> c.toClient == [FdByte] && c.client.buf == [])
            && (c.client.mode == C.Draining ==> c.client.buf == [] && c.toClient == [])
            && c.client.lost == 0 && !c.client.garbled
            && (Shown(c) ==> c.client.mapping == Some((c.peer.width, c.peer.height)))
  {
    C.DescriptorIsSafe(Run(fb, es).conns[id], Run(fb, es).fb);
  }

  /** The sync list holds distinct clients, none of them freed; with at most 128 clients there is room
      for any of them. */
  lemma SyncListHasRoom(fb: Screen, es: seq<Step>, id: Id)
    requires id in Run(fb, es).conns
    ensures var w := Run(fb, es);
            && Distinct(w.syncList) && |w.syncList| <= MAX_CLIENTS
            && (forall x :: x in w.syncList ==> x in w.conns)
            && (|w.conns| <= MAX_CLIENTS ==> HasRoom(w.syncList, id))
  {
    var w := Run(fb, es);
    if |w.conns| <= MAX_CLIENTS {
      RoomFor(w, id);
    }
  }

  lemma {:induction false} DistinctFits(s: seq<Id>, ids: set<Id>, spare: Id)
    requires Distinct(s) && (forall x :: x in s ==> x in ids)
    requires spare in ids && spare !in s
    ensures |s| < |ids|
  {
    if s != [] {
      assert s[0] !in s[1..];
      DistinctFits(s[1..], ids - {s[0]}, spare);
    }
  }

  /** Progress: when the focused client waits and its request has been served, and its damage can be
      copied from its sprite's memory, one update followed by one vblank callback puts an
      acknowledgement on its way, and the copies stay in that memory. */
  lemma WakeUpIsDelivered(fb: Screen, es: seq<Step>)
    requires var w := Run(fb, es);
             && C.Copies(w.fb) && w.active && !w.owed && w.screens != []
             && C.Starved(w.conns[w.screens[0]]) && !Strays(w)
    requires Within(fb, es, MAX_CLIENTS)
    ensures Acknowledges(Run(fb, es))
  {
    NeverMissed(fb, es);
    Delivery(Run(fb, es));
  }

  /** After an update and a vblank callback the focused client has an acknowledgement coming, and no copy
      has newly left a sprite's memory. */
  ghost predicate Acknowledges(w: World)
    requires Inv(w)
  {
    UpdateKeeps(w);
    var u := Next(w, Update);
    u.vblanks > 0 &&
    var v := Next(u, Vblank(u.vblanks));
    && v.screens == w.screens != [] && w.screens[0] in v.conns && VsyncAck in C.Unseen(v.conns[w.screens[0]])
    && v.strayed == w.strayed
  }

  lemma UpdateAsks(w: World)
    requires Inv(w) && C.Copies(w.fb) && w.active && !w.owed && !w.missed && w.screens != [] && C.Starved(w.conns[w.screens[0]])
    ensures var u := UpdateStep(w);
            && u.vblanks > 0 && u.screens == w.screens && u.fb == w.fb && u.strayed == w.strayed
            && (forall id :: id in u.screens ==> id in u.conns) && (Strays(u) <==> Strays(w))
  {
    hide C.Inv, C.Starved, C.Copies;
    if OnRecord(w, w.screens[0]) {
      RecordCounts(w, w.screens[0]);
    }
  }

  lemma Delivery(w: World)
    requires Inv(w) && C.Copies(w.fb) && w.active && !w.owed && !w.missed && w.screens != [] && C.Starved(w.conns[w.screens[0]])
    requires !Strays(w)
    ensures Acknowledges(w)
  {
    hide C.Inv, C.Starved, Shown, FlushFocused, C.Copies, UpdateStep, Strays;
    UpdateAsks(w);
    UpdateKeeps(w);
    var u := UpdateStep(w);
    FewerVblanks(u, u.vblanks);
    hide Sound;
    FocusedIsSound(Fewer(u, u.vblanks));
    FlushArrives(Fewer(u, u.vblanks));
  }

  lemma FlushArrives(w: World)
    requires w.screens != [] && (forall id :: id in w.screens ==> id in w.conns)
    requires C.Inv(w.conns[w.screens[0]], w.fb) && C.Copies(w.fb)
    ensures var v := FlushFocused(w);
            && v.screens == w.screens && w.screens[0] in v.conns && v.strayed == w.strayed
            && VsyncAck in C.Unseen(v.conns[w.screens[0]]) && !C.Starved(v.conns[w.screens[0]])
  {
    C.NeverRefused(w.conns[w.screens[0]], w.fb);
    var c := C.Flush(w.conns[w.screens[0]], w.fb);
    assert c.toClient[|c.toClient| - 1] == VsyncAck;
  }

  function Switches(k: nat): seq<Step> {
    seq(k, _ => Switch)
  }

  lemma {:induction false} SwitchesTurn(fb: Screen, es: seq<Step>, k: nat)
    ensures Run(fb, es + Switches(k)).screens == Turns(Run(fb, es).screens, k)
    decreases k
  {
    hide Inv, Sound, Next, Turn;
    if k == 0 {
      assert es + Switches(0) == es;
    } else {
      SwitchesTurn(fb, es, k - 1);
      OneMoreSwitch(fb, es, k);
    }
  }

  lemma OneMoreSwitch(fb: Screen, es: seq<Step>, k: nat)
    requires k > 0
    ensures Run(fb, es + Switches(k)).screens == Turn(Run(fb, es + Switches(k - 1)).screens)
  {
    hide Inv, Sound, Next, Turn;
    var t := es + Switches(k);
    assert t[..|t| - 1] == es + Switches(k - 1) && t[|t| - 1] == Switch;
    SwitchTurns(Run(fb, es + Switches(k - 1)));
  }

  /** Over any run: `k` switches focus the screen that was `k` places down the list, and keep the order of
      the others; as many switches as there are screens restore the list. */
  lemma FocusCycles(fb: Screen, es: seq<Step>, k: nat)
    requires k <= |Run(fb, es).screens|
    ensures var s := Run(fb, es).screens; Run(fb, es + Switches(k)).screens == s[k..] + s[..k]
  {
    hide Run, Turns, Inv;
    SwitchesTurn(fb, es, k);
    SwitchingCycles(Run(fb, es).screens, k);
  }
}
