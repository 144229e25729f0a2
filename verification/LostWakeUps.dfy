/** Runs of the server that leave a waiting client forgotten, and the exact condition under which no
    run does.  Every client in these runs is a library client. */
module LostWakeUps {
  import opened Common
  import opened Blit
  import opened BlitExact
  import opened ClientRecord
  import opened Handshake
  import opened Session
  import Lists
  import C = Conversation

  // ---------------------------------------------------------------------------------------
  // Counting clients

  /** What happened during a run: how many connections were accepted, whether the terminal was switched
      away, and whether a flush of the input devices failed. */
  datatype Tally = Tally(accepts: nat, away: bool, failed: bool)

  function Count(t: Tally, e: Step): Tally {
    match e
    case Accept(_, _) => t.(accepts := t.accepts + 1)
    case Deactivate => t.(away := true)
    case InputEvent(_, flushed) => t.(failed := t.failed || !flushed)
    case _ => t
  }

  function TallyOf(es: seq<Step>): Tally {
    if es == [] then Tally(0, false, false) else Count(TallyOf(es[..|es| - 1]), es[|es| - 1])
  }

  /** A run that accepts `n` connections, with no switch of the terminal and no failed flush. */
  function Calm(n: nat): Tally {
    Tally(n, false, false)
  }

  function AcceptedBy(e: Step): (s: set<Id>)
    ensures |s| == if e.Accept? then 1 else 0
  {
    if e.Accept? then {e.id} else {}
  }

  lemma RemoveAddsNobody(w: World, id: Id, c: C.Conn)
    requires Sound(w) && id in w.conns && !w.conns[id].gone
    requires C.Inv(C.Remove(c), w.fb) && c.peer.connected == w.conns[id].peer.connected
    ensures RemoveClient(w, id, c).conns.Keys == w.conns.Keys
  {
    hide C.Inv;
    KeySetKept(w.conns, id, C.Remove(c));
    var t := w.(conns := w.conns[id := C.Remove(c)], screens := Lists.Without(w.screens, id));
    Lists.WithoutFacts(w.screens, id);
    ReplaceSound(w, id, C.Remove(c), t.screens, w.syncList);
    if c.peer.connected {
      ResyncInv(t);
    }
  }

  lemma ServeAddsNobody(w: World, id: Id, env: Env)
    requires Sound(w) && id in w.conns && !w.conns[id].gone && w.conns[id].toServer != []
    ensures ServeStep(w, id, env).conns.Keys == w.conns.Keys
  {
    hide RemoveClient, Handle;
    var c := w.conns[id];
    KeySetKept(w.conns, id, C.Serve(c, w.fb, env));
    if Dropped(w, id, Handle(c.peer, w.fb, c.toServer[0], env)) {
      ServeShows(c, w.fb, env);
      DroppedIsSound(c, w.fb, env);
      RemoveAddsNobody(w, id, C.Serve(c, w.fb, env));
    }
  }

  lemma SwitchAddsNobody(w: World)
    requires Inv(w)
    ensures SwitchStep(w).conns.Keys == w.conns.Keys
  {
    hide C.Inv, Resync, PushFocused, Wake, Shown;
    if |w.screens| >= 2 {
      RotateDistinct(w.screens);
      var t := w.(screens := w.screens[1..] + [w.screens[0]]);
      assert Sound(t);
      hide Sound;
      ResyncInv(t);
      PushInputKeeps(Resync(t));
    }
  }

  lemma InputAddsNobody(w: World, forward: bool, flushed: bool)
    requires Inv(w)
    ensures InputStep(w, forward, flushed).conns.Keys == w.conns.Keys
  {
    hide C.Inv, UpdateState, PushFocused, Sound, Wake;
    UpdateStateKeeps(w, flushed);
    PushInputKeeps(UpdateState(w, flushed));
  }

  lemma DropAddsNobody(w: World, id: Id)
    requires Sound(w) && id in w.conns && !w.conns[id].gone
    ensures DropStep(w, id).conns.Keys == w.conns.Keys
  {
    hide RemoveClient;
    C.RemoveKeeps(w.conns[id], w.fb);
    RemoveAddsNobody(w, id, w.conns[id]);
  }

  lemma VblankAddsNobody(w: World, n: nat)
    requires Sound(w)
    ensures VblankStep(w, n).conns.Keys == w.conns.Keys
  {
    hide C.Inv, C.Flush;
    if w.screens != [] {
      KeySetKept(w.conns, w.screens[0], C.Flush(w.conns[w.screens[0]], w.fb));
    }
  }

  lemma OnlyAcceptAdds(w: World, e: Step)
    requires Inv(w)
    ensures Next(w, e).conns.Keys <= w.conns.Keys + AcceptedBy(e)
  {
    hide C.Inv, SwitchStep, InputStep, DropStep, ServeStep, VblankStep, Handle, Sound, Wake, Perform, FlagsOf, Requests, C.Flush;
    match e
    case Serve(id, env) =>
      if id in w.conns && !w.conns[id].gone && w.conns[id].toServer != [] {
        ServeAddsNobody(w, id, env);
      }
    case Drop(id) =>
      if id in w.conns && !w.conns[id].gone {
        DropAddsNobody(w, id);
      } else {
        NothingToDrop(w, id);
      }
    case Switch => SwitchAddsNobody(w);
    case InputEvent(forward, flushed) => InputAddsNobody(w, forward, flushed);
    case Vblank(n) => VblankAddsNobody(w, n);
    case _ =>
  }

  lemma NothingToDrop(w: World, id: Id)
    requires Sound(w) && (id !in w.conns || w.conns[id].gone)
    ensures DropStep(w, id) == w
  {
  }

  lemma CardinalityMono<T>(a: set<T>, b: set<T>)
    requires a <= b
    ensures |a| <= |b|
  {
    if a != {} {
      var x :| x in a;
      CardinalityMono(a - {x}, b - {x});
    }
  }

  lemma OneMore(a: map<Id, C.Conn>, b: map<Id, C.Conn>, extra: set<Id>)
    requires a.Keys <= b.Keys + extra
    ensures |a| <= |b| + |extra|
  {
    CardinalityMono(a.Keys, b.Keys + extra);
    assert b.Keys + extra == b.Keys + (extra - b.Keys);
    CardinalityMono(extra - b.Keys, extra);
    assert |a| == |a.Keys| && |b| == |b.Keys|;
  }

  /** The server holds at most as many clients as it accepted. */
  lemma {:induction false} AcceptsBound(fb: Screen, es: seq<Step>, n: nat)
    requires TallyOf(es).accepts <= n
    ensures |Run(fb, es).conns| <= TallyOf(es).accepts && Within(fb, es, n)
    decreases |es|
  {
    hide Sound, Wake, Next, AcceptedBy;
    if es != [] {
      var w, e := Run(fb, es[..|es| - 1]), es[|es| - 1];
      AcceptsBound(fb, es[..|es| - 1], n);
      OnlyAcceptAdds(w, e);
      OneMore(Next(w, e).conns, w.conns, AcceptedBy(e));
    }
  }

  // ---------------------------------------------------------------------------------------
  // Building runs

  function With(w: World, id: Id, c: C.Conn): World {
    w.(conns := w.conns[id := c])
  }

  lemma Then(fb: Screen, es: seq<Step>, e: Step) returns (t: seq<Step>)
    ensures Run(fb, t) == Next(Run(fb, es), e) && TallyOf(t) == Count(TallyOf(es), e)
  {
    t := es + [e];
    assert t[..|t| - 1] == es;
  }

  /** The client acts. */
  lemma ThenAct(fb: Screen, es: seq<Step>, w: World, id: Id, c: C.Conn, a: Act) returns (t: seq<Step>)
    requires Run(fb, es) == With(w, id, c) && w.fb == fb
    ensures Run(fb, t) == With(w, id, Perform(c, fb, a)) && TallyOf(t) == TallyOf(es)
  {
    hide C.Inv, Run, Perform;
    t := Then(fb, es, Client(id, a));
    assert w.conns[id := c][id := Perform(c, fb, a)] == w.conns[id := Perform(c, fb, a)];
  }

  /** The server handles a message that asks for no sync. */
  lemma ThenServe(fb: Screen, es: seq<Step>, w: World, id: Id, c: C.Conn, env: Env, r: Result) returns (t: seq<Step>)
    requires Run(fb, es) == With(w, id, c) && w.fb == fb
    requires !c.gone && c.toServer != [] && |c.peer.slots| <= DMG_SLOTS
    requires r == Handle(c.peer, fb, c.toServer[0], env) && r.ok && !r.enlist
    ensures var screens := if r.deed == Some(Connected) then w.screens + [id] else w.screens;
            Run(fb, t) == With(w.(screens := screens), id, C.Serve(c, fb, env))
    ensures TallyOf(t) == TallyOf(es)
  {
    hide Run;
    t := Then(fb, es, Serve(id, env));
    ServeNow(Run(fb, es), w, id, c, env, r);
  }

  lemma ServeNow(now: World, w: World, id: Id, c: C.Conn, env: Env, r: Result)
    requires Sound(now) && now == With(w, id, c)
    requires !c.gone && c.toServer != [] && |c.peer.slots| <= DMG_SLOTS
    requires r == Handle(c.peer, w.fb, c.toServer[0], env) && r.ok && !r.enlist
    ensures var screens := if r.deed == Some(Connected) then w.screens + [id] else w.screens;
            CallbackStep(now, id, env) == With(w.(screens := screens), id, C.Serve(c, w.fb, env))
  {
    hide C.Inv, Sound, Handle, C.Serve;
    assert w.conns[id := c][id := C.Serve(c, w.fb, env)] == w.conns[id := C.Serve(c, w.fb, env)];
  }

  const Kernel := Env(5, true)

  /** A screen that a client of its whole size can register with. */
  predicate Usable(fb: Screen) {
    fb.width > 0 && fb.height > 0 && fb.bpp == 32 && ValidGeometry(C.CopyGrid(fb)) && NarrowRows(C.CopyGrid(fb))
  }

  /** Any size that the screen holds. */
  predicate Holds(fb: Screen, width: nat, height: nat) {
    fb.bpp == 32 && 0 < width <= fb.width && 0 < height <= fb.height
  }

  /** The conversation after the client has registered, been offered the descriptor, and asked for it. */
  function Asking(width: nat, height: nat): C.Conn {
    C.Conn(
      C.NewClient.(mode := C.AwaitingFd, known := true, width := width, height := height),
      NewPeer.(handshaking := true, recvFdWait := true, width := width, height := height, bpp := 32,
               shmFd := 5, mapped := true),
      [Ack(SEND_FD)], [], false, false)
  }

  /** The conversation once the client is connected and maps its sprite. */
  function SettledAt(width: nat, height: nat): C.Conn {
    var a := Asking(width, height);
    C.Conn(
      a.client.(mode := C.Dispatching, mapping := Some((width, height)), handshaking := false),
      a.peer.(recvFdWait := false, connected := true, handshaking := false),
      [], [], false, false)
  }

  function Settled(fb: Screen): C.Conn {
    SettledAt(fb.width, fb.height)
  }

  lemma Registering(fb: Screen, es: seq<Step>, w: World, id: Id, width: nat, height: nat) returns (t: seq<Step>, c: C.Conn)
    requires Holds(fb, width, height) && Run(fb, es) == With(w, id, C.NewConn) && w.fb == fb
    ensures Run(fb, t) == With(w, id, c) && TallyOf(t) == TallyOf(es)
    ensures var a := Asking(width, height);
            c == a.(client := a.client.(mode := C.Dispatching), toServer := [], toClient := [RecvFd])
  {
    hide Run, Inv, Sound, Next, With;
    c := C.NewConn;
    t := ThenAct(fb, es, w, id, c, Read(1));
    c := Perform(c, fb, Read(1));
    assert c == C.NewConn.(client := C.NewClient.(buf := [ServInfo]), toClient := []);
    t := ThenAct(fb, t, w, id, c, Dispatch);
    c := Perform(c, fb, Dispatch);
    assert c == C.NewConn.(client := C.NewClient.(known := true), toClient := []);
    t := ThenAct(fb, t, w, id, c, Act.Register(width, height));
    c := Perform(c, fb, Act.Register(width, height));
    assert c.toServer == [Inbound.Register(width, height, 32)];
    t := ThenServe(fb, t, w, id, c, Kernel, Handle(c.peer, fb, c.toServer[0], Kernel));
    c := C.Serve(c, fb, Kernel);
    SameScreens(w);
  }

  lemma SameScreens(w: World)
    ensures w.(screens := w.screens) == w
  {
  }

  lemma Requesting(fb: Screen, es: seq<Step>, w: World, id: Id, width: nat, height: nat) returns (t: seq<Step>)
    requires Holds(fb, width, height) && Run(fb, es) == With(w, id, C.NewConn) && w.fb == fb
    ensures Run(fb, t) == With(w, id, Asking(width, height)) && TallyOf(t) == TallyOf(es)
  {
    hide Run, Inv, Sound, Next, With;
    var c;
    t, c := Registering(fb, es, w, id, width, height);
    t := ThenAct(fb, t, w, id, c, Read(1));
    c := Perform(c, fb, Read(1));
    assert c.client.buf == [RecvFd] && c.toClient == [];
    t := ThenAct(fb, t, w, id, c, Dispatch);
    c := Perform(c, fb, Dispatch);
    assert c.client.buf == [];
    t := ThenAct(fb, t, w, id, c, Drain);
    c := Perform(c, fb, Drain);
    assert c == Asking(width, height);
  }

  lemma Connecting(fb: Screen, es: seq<Step>, w: World, id: Id, width: nat, height: nat) returns (t: seq<Step>)
    requires Holds(fb, width, height) && Run(fb, es) == With(w, id, C.NewConn) && w.fb == fb
    ensures Run(fb, t) == With(w.(screens := w.screens + [id]), id, SettledAt(width, height)) && TallyOf(t) == TallyOf(es)
  {
    hide Run, Inv, Sound, Next, With;
    t := Requesting(fb, es, w, id, width, height);
    var c := Asking(width, height);
    t := ThenServe(fb, t, w, id, c, Kernel, Handle(c.peer, fb, c.toServer[0], Kernel));
    c := C.Serve(c, fb, Kernel);
    SameScreens(w);
    assert c.toClient == [FdByte] && c.toServer == [];
    t := ThenAct(fb, t, w, id, c, Await(true));
    c := Perform(c, fb, Await(true));
    assert c.toServer == [Ack(ESTABLISHED)] && c.toClient == [];
    t := ThenServe(fb, t, w, id, c, Kernel, Handle(c.peer, fb, c.toServer[0], Kernel));
    c := C.Serve(c, fb, Kernel);
    assert c == SettledAt(width, height);
  }

  /** From any reachable state, a library client that starts with any size the screen holds, with good
      answers from the kernel, ends up connected: its screen is at the end of the list, it maps a sprite
      of that size, and no other client is affected. */
  lemma JoiningAt(fb: Screen, es: seq<Step>, id: Id, width: nat, height: nat) returns (t: seq<Step>)
    requires Holds(fb, width, height) && id !in Run(fb, es).conns
    ensures var w := Run(fb, es);
            && Run(fb, t) == With(w.(screens := w.screens + [id]), id, SettledAt(width, height))
            && TallyOf(t) == TallyOf(es).(accepts := TallyOf(es).accepts + 1)
  {
    hide C.Inv, Run;
    SameScreen(fb, es);
    var w := Run(fb, es);
    t := Then(fb, es, Accept(id, false));
    assert C.NewConn.(foreign := false) == C.NewConn;
    t := Connecting(fb, t, w, id, width, height);
  }

  /** With the size of the screen. */
  lemma Joining(fb: Screen, es: seq<Step>, id: Id) returns (t: seq<Step>)
    requires Usable(fb) && id !in Run(fb, es).conns
    ensures var w := Run(fb, es);
            && Run(fb, t) == With(w.(screens := w.screens + [id]), id, Settled(fb))
            && TallyOf(t) == TallyOf(es).(accepts := TallyOf(es).accepts + 1)
  {
    hide Run;
    t := JoiningAt(fb, es, id, fb.width, fb.height);
  }

  // ---------------------------------------------------------------------------------------
  // Reports

  const ONLY_ASYNC := SyncFlags(true, false, false, 0)

  /** A connected client, on its own screen, that has never asked for a vblank. */
  predicate Idle(c: C.Conn) {
    && !c.foreign && !c.gone && c.client.mode == C.Dispatching && !c.client.handshaking
    && c.peer.connected && c.peer.mapped && |c.peer.slots| <= DMG_SLOTS && !c.peer.syncFlags.vblank
  }

  function Reporting(c: C.Conn, fb: Screen, flags: SyncFlags): C.Conn
    requires Usable(fb)
  {
    c.(client := c.client.(waitVsync := c.client.waitVsync || flags.vblank),
       toServer := c.toServer + [Sync(WholeOf(fb.width, fb.height), flags)])
  }

  /** The client reports its whole sprite. */
  lemma ThenReport(fb: Screen, es: seq<Step>, id: Id, flags: SyncFlags) returns (t: seq<Step>)
    requires Usable(fb) && id in Run(fb, es).conns && Idle(Run(fb, es).conns[id])
    ensures var w := Run(fb, es);
            Run(fb, t) == With(w, id, Reporting(w.conns[id], fb, flags)) && TallyOf(t) == TallyOf(es)
  {
    hide C.Inv, Run;
    SameScreen(fb, es);
    t := Then(fb, es, Client(id, RequestSync(WholeOf(fb.width, fb.height), flags)));
  }

  /** The report is served: the client is in the table. */
  lemma ThenServeReport(fb: Screen, es: seq<Step>, id: Id, flags: SyncFlags) returns (t: seq<Step>)
    requires Usable(fb) && flags.other == 0 && flags != NO_FLAGS
    requires id in Run(fb, es).conns && id !in Run(fb, es).syncList && |Run(fb, es).syncList| < MAX_CLIENTS
    requires var c := Run(fb, es).conns[id];
             Idle(c) && c.toServer == [Sync(WholeOf(fb.width, fb.height), flags)]
    ensures var w := Run(fb, es);
            && |w.conns[id].peer.slots| <= DMG_SLOTS
            && Run(fb, t) == With(w, id, C.Serve(w.conns[id], fb, Kernel)).(syncList := w.syncList + [id])
    ensures TallyOf(t) == TallyOf(es)
  {
    SameScreen(fb, es);
    hide C.Inv, Run;
    t := Then(fb, es, Serve(id, Kernel));
    ReportEnlists(Run(fb, es), id, fb, flags);
  }

  lemma ReportEnlists(w: World, id: Id, fb: Screen, flags: SyncFlags)
    requires Usable(fb) && flags.other == 0 && flags != NO_FLAGS && Sound(w) && w.fb == fb
    requires id in w.conns && id !in w.syncList && |w.syncList| < MAX_CLIENTS
    requires Idle(w.conns[id]) && w.conns[id].toServer == [Sync(WholeOf(fb.width, fb.height), flags)]
    ensures CallbackStep(w, id, Kernel)
         == With(w, id, C.Serve(w.conns[id], fb, Kernel)).(syncList := w.syncList + [id])
  {
    hide C.Inv, Sound;
    var c := w.conns[id];
    var r := Handle(c.peer, fb, c.toServer[0], Kernel);
    assert r.ok && r.enlist && r.deed == None;
  }

  /** What serving a report leaves of the conversation. */
  lemma ServedReport(c: C.Conn, fb: Screen, flags: SyncFlags)
    requires Usable(fb) && flags.other == 0 && flags != NO_FLAGS
    requires Idle(c) && c.toServer == [Sync(WholeOf(fb.width, fb.height), flags)]
    ensures var s := C.Serve(c, fb, Kernel);
            && s.toServer == [] && s.toClient == c.toClient && s.client == c.client && !s.gone && !s.foreign
            && (!flags.vblank ==> Idle(s)) && Shown(s)
            && (flags.vblank ==> s.peer.syncFlags.vblank)
            && (c.peer.slots == [] ==> s.peer.slots == [WholeOf(fb.width, fb.height)])
  {
    assert c.toServer[1..] == [];
    assert c.toClient + [] == c.toClient;
  }

  /** Nothing will wake the focused client. */
  ghost predicate Forgotten(w: World) {
    && w.screens != [] && w.screens[0] in w.conns && C.Starved(w.conns[w.screens[0]])
    && w.syncList == [] && w.vblanks == 0
  }

  // ---------------------------------------------------------------------------------------
  // One client

  /** The only client has reported its whole sprite and waits; the request is on record. */
  ghost predicate Recorded(w: World, fb: Screen, active: bool)
    requires Usable(fb)
  {
    && w.fb == fb && w.screens == [0] && w.syncList == [0] && w.vblanks == 0 && w.active == active && !w.owed
    && 0 in w.conns && C.Starved(w.conns[0]) && !w.conns[0].gone
    && w.conns[0].peer.slots == [WholeOf(fb.width, fb.height)] && w.conns[0].peer.syncFlags.vblank
  }

  lemma WaitingServed(fb: Screen, flags: SyncFlags)
    requires Usable(fb) && flags == ONLY_VBLANK
    ensures var c := Reporting(Settled(fb), fb, flags);
            && Idle(Settled(fb)) && Idle(c) && c.toServer == [Sync(WholeOf(fb.width, fb.height), flags)]
            && var s := C.Serve(c, fb, Kernel);
               C.Starved(s) && Shown(s) && !s.gone && s.peer.slots == [WholeOf(fb.width, fb.height)] && s.peer.syncFlags.vblank
  {
    ServedReport(Reporting(Settled(fb), fb, flags), fb, flags);
  }

  /** The client connects and reports. */
  lemma OneWaits(fb: Screen) returns (t: seq<Step>)
    requires Usable(fb)
    ensures TallyOf(t) == Calm(1)
    ensures Run(fb, t) == With(Start(fb).(screens := [0]), 0, Reporting(Settled(fb), fb, ONLY_VBLANK))
  {
    RunNothing(fb);
    SettledIsIdle(fb);
    hide Run, C.Inv, Usable, Reporting, Settled, Idle, Sound, Wake, TallyOf;
    t := Joining(fb, [], 0);
    t := ThenReport(fb, t, 0, ONLY_VBLANK);
    TwiceWith(Start(fb).(screens := [0]), 0, Settled(fb), Reporting(Settled(fb), fb, ONLY_VBLANK));
  }

  lemma RunNothing(fb: Screen)
    ensures Run(fb, []) == Start(fb) && TallyOf([]) == Calm(0)
  {
  }

  lemma SettledIsIdle(fb: Screen)
    ensures Idle(Settled(fb))
  {
  }

  lemma TwiceWith(w: World, id: Id, c: C.Conn, d: C.Conn)
    ensures With(With(w, id, c), id, d) == With(w, id, d)
  {
    assert w.conns[id := c][id := d] == w.conns[id := d];
  }

  /** Its report is served; if `away`, after the terminal was switched away. */
  lemma OneReports(fb: Screen, away: bool) returns (t: seq<Step>)
    requires Usable(fb)
    ensures Recorded(Run(fb, t), fb, !away) && TallyOf(t) == Tally(1, away, false)
  {
    t := OneWaits(fb);
    WaitingServed(fb, ONLY_VBLANK);
    hide Run, C.Inv, Usable, C.Starved, C.Serve, Reporting, Settled, Idle, Recorded, Next;
    if away {
      t := ThenDeactivate(fb, t);
    }
    var w := Run(fb, t);
    t := ThenServeReport(fb, t, 0, ONLY_VBLANK);
    OneRecorded(w, Run(fb, t), fb, !away);
  }

  lemma ThenDeactivate(fb: Screen, es: seq<Step>) returns (t: seq<Step>)
    ensures Run(fb, t) == Run(fb, es).(active := false) && TallyOf(t) == TallyOf(es).(away := true)
  {
    hide Run, Next, Sound, Wake;
    t := Then(fb, es, Deactivate);
    Deactivated(Run(fb, es));
  }

  lemma Deactivated(w: World)
    requires Inv(w)
    ensures Next(w, Deactivate) == w.(active := false)
  {
    hide C.Inv, AcceptStep, ClientStep, CallbackStep, DropStep, UpdateStep, VblankStep, SwitchStep, InputStep;
  }

  lemma OneRecorded(w: World, t: World, fb: Screen, active: bool)
    requires Usable(fb) && w.active == active
    requires w == With(Start(fb).(screens := [0]), 0, Reporting(Settled(fb), fb, ONLY_VBLANK)).(active := w.active)
    requires |w.conns[0].peer.slots| <= DMG_SLOTS && w.conns[0].toServer != [] && !w.conns[0].gone
    requires t == With(w, 0, C.Serve(w.conns[0], fb, Kernel)).(syncList := w.syncList + [0])
    ensures Recorded(t, fb, active)
  {
    WaitingServed(fb, ONLY_VBLANK);
    hide C.Starved, C.Serve, Reporting, Settled;
  }

  /** A request served while the virtual terminal is switched away is dropped, and the client waits
      with nothing in flight until the server is resynchronised. */
  lemma WakeUpLostWhileInactive(fb: Screen) returns (t: seq<Step>)
    requires Usable(fb)
    ensures var w := Run(fb, t); Forgotten(w) && w.owed && !w.active
    ensures Within(fb, t, 1) && TallyOf(t) == Tally(1, true, false)
  {
    hide AcceptStep, ClientStep, DropStep, UpdateStep, VblankStep, SwitchStep, InputStep, CallbackStep;
    hide Run, Wake, C.Starved, Sound, Usable, Recorded;
    var es := OneReports(fb, true);
    t := Then(fb, es, Update);
    DroppedByUpdate(Run(fb, es), fb);
    AcceptsBound(fb, t, 1);
  }

  lemma DroppedByUpdate(w: World, fb: Screen)
    requires Usable(fb) && Sound(w) && Recorded(w, fb, false)
    ensures var t := UpdateStep(w); Forgotten(t) && t.owed && !t.active
  {
    hide C.Inv, C.Starved;
  }

  /** The terminal is switched back, and the first input event comes when a device cannot be flushed: the
      resynchronisation is given up, and nothing will wake the client although the server is active. */
  lemma WakeUpLostToFlush(fb: Screen) returns (t: seq<Step>)
    requires Usable(fb)
    ensures var w := Run(fb, t); Forgotten(w) && w.active && !w.unmute
    ensures Within(fb, t, 1) && TallyOf(t) == Tally(1, true, true)
  {
    hide AcceptStep, ClientStep, DropStep, UpdateStep, VblankStep, SwitchStep, InputStep, CallbackStep;
    hide Run, Wake, C.Starved, Sound, Usable, Forgotten;
    var es := WakeUpLostWhileInactive(fb);
    var back := Then(fb, es, Activate(true));
    t := Then(fb, back, InputEvent(false, false));
    StaysForgotten(Run(fb, es));
    AcceptsBound(fb, t, 1);
  }

  lemma StaysForgotten(w: World)
    requires Inv(w) && Forgotten(w)
    ensures var u := w.(active := true, unmute := true);
            && Sound(u)
            && var t := InputStep(u, false, false); Forgotten(t) && t.active && !t.unmute
  {
    hide C.Inv, C.Starved, Shown;
    var c := w.conns[w.screens[0]];
    PushedStarves(c);
  }

  lemma PushedStarves(c: C.Conn)
    requires C.Starved(c)
    ensures C.Starved(C.Push(c, Input))
  {
    assert C.Unseen(C.Push(c, Input)) == C.Unseen(c) + [Input];
  }

  /** On a screen whose width is not a whole number of grid cells, the copy of a full-width report is
      refused, the acknowledgement is not sent, and the request is used up. */
  lemma WakeUpLostToRefusal(fb: Screen) returns (t: seq<Step>)
    requires Usable(fb) && fb.width % fb.align != 0
    ensures var w := Run(fb, t); Forgotten(w) && !w.owed && w.active
    ensures Within(fb, t, 1) && TallyOf(t) == Calm(1)
  {
    hide AcceptStep, ClientStep, DropStep, UpdateStep, VblankStep, SwitchStep, InputStep, CallbackStep;
    hide Run, Wake, C.Starved, Sound, Usable, Recorded;
    var es := OneReports(fb, false);
    var asked := Then(fb, es, Update);
    t := Then(fb, asked, Vblank(1));
    RefusedAtVblank(Run(fb, es), fb);
    AcceptsBound(fb, t, 1);
  }

  lemma RefusedAtVblank(w: World, fb: Screen)
    requires Usable(fb) && fb.width % fb.align != 0 && Inv(w) && Recorded(w, fb, true)
    ensures Sound(UpdateStep(w))
    ensures var t := VblankStep(UpdateStep(w), 1); Forgotten(t) && !t.owed && t.active
  {
    UpdateKeeps(w);
    RefusedIff(C.CopyGrid(fb), WholeOf(fb.width, fb.height));
    hide C.Inv, C.Starved, Misaligned;
    assert C.Refused(fb, w.conns[0].peer.slots[0]);
    OneRequest(FlagsOf(w, [0]));
  }

  lemma OneRequest(flags: seq<SyncFlags>)
    requires |flags| == 1
    ensures Requests(flags) == if flags[0].vblank then 1 else 0
  {
    assert flags[..0] == [];
  }

  // ---------------------------------------------------------------------------------------
  // One client too many

  /** The client that will be forgotten; the others are numbered from 0. */
  const VICTIM: Id := MAX_CLIENTS

  function Ids(from: nat, to: nat): seq<Id>
    requires from <= to
  {
    seq(to - from, i requires 0 <= i < to - from => from + i)
  }

  /** What client `i` of the crowd has in its channel. */
  function Queue(fb: Screen, i: nat, asked: nat, served: nat): seq<Inbound>
    requires Usable(fb)
  {
    if served <= i < asked then [Sync(WholeOf(fb.width, fb.height), ONLY_ASYNC)] else []
  }

  /** The victim waits behind client 0, with nothing in flight; `n` other clients are connected, the first
      `asked` of them have reported, and the first `served` reports are in the table. */
  ghost predicate Crowd(w: World, fb: Screen, n: nat, asked: nat, served: nat)
    requires Usable(fb)
  {
    && 0 < n <= MAX_CLIENTS && served <= asked <= n
    && w.fb == fb && w.vblanks == 0 && w.active && !w.owed
    && w.screens == [0, VICTIM] + Ids(1, n) && w.syncList == Ids(0, served)
    && (forall i: nat :: i in w.conns <==> i < n || i == VICTIM)
    && C.Starved(w.conns[VICTIM]) && Shown(w.conns[VICTIM])
    && (forall i: nat :: i < n ==> Idle(w.conns[i]) && w.conns[i].toServer == Queue(fb, i, asked, served))
  }

  /** Client 0 and the victim connect, in this order, after the first input event. */
  lemma TwoConnect(fb: Screen) returns (t: seq<Step>)
    requires Usable(fb)
    ensures var w := Run(fb, t);
            && w == Start(fb).(unmute := false, screens := [0, VICTIM],
                               conns := map[0 := Settled(fb), VICTIM := Settled(fb)])
            && TallyOf(t) == Calm(2)
  {
    t := FirstInput(fb);
    hide Run, C.Inv, Usable, Settled;
    t := Joining(fb, t, 0);
    t := Joining(fb, t, VICTIM);
  }

  lemma FirstInput(fb: Screen) returns (t: seq<Step>)
    ensures Run(fb, t) == Start(fb).(unmute := false) && TallyOf(t) == Calm(0)
  {
    hide C.Inv;
    t := Then(fb, [], InputEvent(false, true));
  }

  /** The victim's request is in its channel. */
  lemma VictimAsks(fb: Screen) returns (t: seq<Step>)
    requires Usable(fb)
    ensures var w := Run(fb, t);
            && w == Start(fb).(unmute := false, screens := [0, VICTIM],
                               conns := map[0 := Settled(fb), VICTIM := Reporting(Settled(fb), fb, ONLY_VBLANK)])
            && TallyOf(t) == Calm(2)
  {
    t := TwoConnect(fb);
    WaitingServed(fb, ONLY_VBLANK);
    hide Run, C.Inv, C.Serve, Reporting, Settled, Idle, Usable;
    t := ThenReport(fb, t, VICTIM, ONLY_VBLANK);
    PairUpdate(Settled(fb), Settled(fb), Reporting(Settled(fb), fb, ONLY_VBLANK));
  }

  /** The victim's request is on record. */
  lemma VictimReports(fb: Screen) returns (t: seq<Step>)
    requires Usable(fb)
    ensures var w := Run(fb, t);
            && w == Start(fb).(unmute := false, screens := [0, VICTIM], syncList := [VICTIM],
                               conns := map[0 := Settled(fb),
                                            VICTIM := C.Serve(Reporting(Settled(fb), fb, ONLY_VBLANK), fb, Kernel)])
            && TallyOf(t) == Calm(2)
  {
    t := VictimAsks(fb);
    WaitingServed(fb, ONLY_VBLANK);
    hide Run, C.Inv, C.Serve, Reporting, Settled, Idle, Usable;
    t := ThenServeReport(fb, t, VICTIM, ONLY_VBLANK);
    var asked := Reporting(Settled(fb), fb, ONLY_VBLANK);
    PairUpdate(Settled(fb), asked, C.Serve(asked, fb, Kernel));
  }

  lemma PairUpdate(a: C.Conn, b: C.Conn, c: C.Conn)
    ensures map[0 := a, VICTIM := b][VICTIM := c] == map[0 := a, VICTIM := c]
  {
  }

  /** The acknowledgement goes to client 0, which is focused. */
  lemma VictimStarves(fb: Screen) returns (t: seq<Step>)
    requires Usable(fb)
    ensures Crowd(Run(fb, t), fb, 1, 0, 0) && TallyOf(t) == Calm(2)
  {
    hide Run, C.Starved, Usable, Crowd, C.Serve, Reporting, Settled, Wake, Sound;
    hide AcceptStep, ClientStep, DropStep, UpdateStep, VblankStep, SwitchStep, InputStep, CallbackStep;
    var es := VictimReports(fb);
    var updated := Then(fb, es, Update);
    t := Then(fb, updated, Vblank(1));
    WaitingServed(fb, ONLY_VBLANK);
    OthersWakeUp(Run(fb, es), fb);
  }

  lemma OthersWakeUp(w: World, fb: Screen)
    requires Usable(fb) && Inv(w)
    requires w.fb == fb && w.screens == [0, VICTIM] && w.syncList == [VICTIM] && w.vblanks == 0 && w.active && !w.owed
    requires forall i: nat :: i in w.conns <==> i == 0 || i == VICTIM
    requires w.conns[0] == Settled(fb)
    requires var v := w.conns[VICTIM]; C.Starved(v) && Shown(v) && v.peer.syncFlags.vblank
    ensures Sound(UpdateStep(w))
    ensures Crowd(VblankStep(UpdateStep(w), 1), fb, 1, 0, 0)
  {
    hide Wake, C.Inv, C.Starved, Settled, VblankStep, Crowd;
    UpdateKeeps(w);
    OneRequest(FlagsOf(w, [VICTIM]));
    SettledIsShown(fb);
    var u := UpdateStep(w);
    hide Sound;
    assert u.vblanks == 1 && u.syncList == [] && u.conns[0] == w.conns[0] && u.conns[VICTIM] == w.conns[VICTIM];
    AckGoesElsewhere(u, fb);
  }

  lemma SettledIsShown(fb: Screen)
    ensures Shown(Settled(fb)) && !Settled(fb).gone && Settled(fb).peer.slots == []
  {
  }

  lemma AckGoesElsewhere(u: World, fb: Screen)
    requires Usable(fb) && Sound(u)
    requires u.fb == fb && u.screens == [0, VICTIM] && u.syncList == [] && u.vblanks == 1 && u.active && !u.owed
    requires forall i: nat :: i in u.conns <==> i == 0 || i == VICTIM
    requires u.conns[0] == Settled(fb) && C.Starved(u.conns[VICTIM]) && Shown(u.conns[VICTIM])
    ensures Crowd(VblankStep(u, 1), fb, 1, 0, 0)
  {
    hide Sound, C.Inv, C.Starved;
    assert [0, VICTIM] + Ids(1, 1) == [0, VICTIM];
  }

  /** One more client joins the crowd. */
  lemma CrowdGrows(fb: Screen, es: seq<Step>, n: nat) returns (t: seq<Step>)
    requires Usable(fb) && n < MAX_CLIENTS && Crowd(Run(fb, es), fb, n, 0, 0)
    ensures Crowd(Run(fb, t), fb, n + 1, 0, 0) && TallyOf(t) == TallyOf(es).(accepts := TallyOf(es).accepts + 1)
  {
    hide Run, Usable, With;
    t := Joining(fb, es, n);
    JoinsCrowd(Run(fb, es), fb, n);
  }

  lemma JoinsCrowd(w: World, fb: Screen, n: nat)
    requires Usable(fb) && n < MAX_CLIENTS && Crowd(w, fb, n, 0, 0)
    ensures Crowd(With(w.(screens := w.screens + [n]), n, Settled(fb)), fb, n + 1, 0, 0)
  {
    SettledIsIdle(fb);
    assert Settled(fb).toServer == [];
    hide C.Starved, Idle, Settled, Shown;
    assert Ids(1, n) + [n] == Ids(1, n + 1);
    assert [0, VICTIM] + Ids(1, n) + [n] == [0, VICTIM] + Ids(1, n + 1);
  }

  lemma {:induction false} CrowdOf(fb: Screen, n: nat) returns (t: seq<Step>)
    requires Usable(fb) && 0 < n <= MAX_CLIENTS
    ensures Crowd(Run(fb, t), fb, n, 0, 0) && TallyOf(t) == Calm(n + 1)
    decreases n
  {
    if n == 1 {
      t := VictimStarves(fb);
    } else {
      t := CrowdOf(fb, n - 1);
      t := CrowdGrows(fb, t, n - 1);
    }
  }

  /** The next client of the crowd reports, without asking for a vblank. */
  lemma {:induction false} CrowdAsks(fb: Screen, n: nat, asked: nat) returns (t: seq<Step>)
    requires Usable(fb) && 0 < n <= MAX_CLIENTS && asked <= n
    ensures Crowd(Run(fb, t), fb, n, asked, 0) && TallyOf(t) == Calm(n + 1)
    decreases asked
  {
    hide Run, Usable, Crowd;
    if asked == 0 {
      t := CrowdOf(fb, n);
    } else {
      t := CrowdAsks(fb, n, asked - 1);
      t := NextAsks(fb, t, n, asked);
    }
  }

  lemma NextAsks(fb: Screen, es: seq<Step>, n: nat, asked: nat) returns (t: seq<Step>)
    requires Usable(fb) && 0 < asked <= n && Crowd(Run(fb, es), fb, n, asked - 1, 0)
    ensures Crowd(Run(fb, t), fb, n, asked, 0) && TallyOf(t) == TallyOf(es)
  {
    hide Run, Usable, With, Crowd, Idle, Reporting;
    OneOfCrowd(Run(fb, es), fb, n, asked - 1, 0, asked - 1);
    t := ThenReport(fb, es, asked - 1, ONLY_ASYNC);
    OneAsks(Run(fb, es), fb, n, asked);
  }

  lemma OneOfCrowd(w: World, fb: Screen, n: nat, asked: nat, served: nat, i: nat)
    requires Usable(fb) && Crowd(w, fb, n, asked, served) && i < n
    ensures i in w.conns && Idle(w.conns[i]) && w.conns[i].toServer == Queue(fb, i, asked, served)
    ensures w.syncList == Ids(0, served) && served <= MAX_CLIENTS
  {
    hide C.Starved, Idle;
  }

  lemma OneAsks(w: World, fb: Screen, n: nat, asked: nat)
    requires Usable(fb) && 0 < asked <= n && Crowd(w, fb, n, asked - 1, 0)
    requires asked - 1 in w.conns
    ensures Crowd(With(w, asked - 1, Reporting(w.conns[asked - 1], fb, ONLY_ASYNC)), fb, n, asked, 0)
  {
    hide C.Starved;
    var i: nat := asked - 1;
    OneOfCrowd(w, fb, n, asked - 1, 0, i);
    assert [] + Queue(fb, i, asked, 0) == Queue(fb, i, asked, 0);
    SwapIdle(w, fb, n, asked - 1, 0, i, Reporting(w.conns[i], fb, ONLY_ASYNC), asked, 0, w.syncList);
  }

  /** Replacing one of the crowd by the next stage of its conversation. */
  lemma SwapIdle(w: World, fb: Screen, n: nat, asked: nat, served: nat, i: nat, c: C.Conn, asked': nat, served': nat,
                 list: seq<Id>)
    requires Usable(fb) && Crowd(w, fb, n, asked, served) && i < n
    requires served' <= asked' <= n && list == Ids(0, served')
    requires Idle(c) && c.toServer == Queue(fb, i, asked', served')
    requires forall k: nat :: k < n && k != i ==> Queue(fb, k, asked, served) == Queue(fb, k, asked', served')
    ensures Crowd(With(w, i, c).(syncList := list), fb, n, asked', served')
  {
    hide C.Starved, Idle, Queue;
  }

  /** The reports are served one after the other, in one round. */
  lemma {:induction false} CrowdServed(fb: Screen, n: nat, served: nat) returns (t: seq<Step>)
    requires Usable(fb) && 0 < n <= MAX_CLIENTS && served <= n
    ensures Crowd(Run(fb, t), fb, n, n, served) && TallyOf(t) == Calm(n + 1)
    decreases served
  {
    hide Run, Usable, Crowd;
    if served == 0 {
      t := CrowdAsks(fb, n, n);
    } else {
      t := CrowdServed(fb, n, served - 1);
      t := NextServed(fb, t, n, served);
    }
  }

  lemma ReportWaits(w: World, fb: Screen, n: nat, i: nat)
    requires Usable(fb) && i < n && Crowd(w, fb, n, n, i)
    ensures i in w.conns && i !in w.syncList && |w.syncList| < MAX_CLIENTS
    ensures Idle(w.conns[i]) && w.conns[i].toServer == [Sync(WholeOf(fb.width, fb.height), ONLY_ASYNC)]
    ensures |w.conns[i].peer.slots| <= DMG_SLOTS && !w.conns[i].gone
  {
    OneOfCrowd(w, fb, n, n, i, i);
    hide Crowd;
  }

  lemma NextServed(fb: Screen, es: seq<Step>, n: nat, served: nat) returns (t: seq<Step>)
    requires Usable(fb) && 0 < served <= n && Crowd(Run(fb, es), fb, n, n, served - 1)
    ensures Crowd(Run(fb, t), fb, n, n, served) && TallyOf(t) == TallyOf(es)
  {
    hide Run, Usable, With, Crowd, Idle, C.Serve, Queue, Ids;
    ReportWaits(Run(fb, es), fb, n, served - 1);
    t := ThenServeReport(fb, es, served - 1, ONLY_ASYNC);
    OneServed(Run(fb, es), fb, n, served);
  }

  lemma OneServed(w: World, fb: Screen, n: nat, served: nat)
    requires Usable(fb) && 0 < served <= n && Crowd(w, fb, n, n, served - 1)
    requires served - 1 in w.conns && |w.conns[served - 1].peer.slots| <= DMG_SLOTS
    requires !w.conns[served - 1].gone && w.conns[served - 1].toServer != []
    ensures Crowd(With(w, served - 1, C.Serve(w.conns[served - 1], fb, Kernel)).(syncList := w.syncList + [served - 1]),
                  fb, n, n, served)
  {
    var i: nat := served - 1;
    OneOfCrowd(w, fb, n, n, i, i);
    hide C.Starved, C.Serve, Crowd, Idle, Usable;
    ServedReport(w.conns[i], fb, ONLY_ASYNC);
    assert Ids(0, i) + [i] == Ids(0, served);
    SwapIdle(w, fb, n, n, i, i, C.Serve(w.conns[i], fb, Kernel), n, served, w.syncList + [i]);
  }

  /** With 129 clients: 128 of them fill the table in one round, the switch to the waiting client finds no
      entry for it, and the update that follows asks for no vblank. */
  lemma WakeUpLostToFullTable(fb: Screen) returns (t: seq<Step>)
    requires Usable(fb)
    ensures var w := Run(fb, t); Forgotten(w) && !w.owed && w.active
    ensures Within(fb, t, MAX_CLIENTS + 1) && TallyOf(t) == Calm(MAX_CLIENTS + 1)
  {
    hide AcceptStep, ClientStep, DropStep, UpdateStep, VblankStep, SwitchStep, InputStep, CallbackStep;
    hide Run, Wake, C.Starved, Sound, Usable, Crowd;
    var es := CrowdServed(fb, MAX_CLIENTS, MAX_CLIENTS);
    var turned := Then(fb, es, Switch);
    t := Then(fb, turned, Update);
    SwitchFindsNoRoom(Run(fb, es), fb);
    AcceptsBound(fb, t, MAX_CLIENTS + 1);
  }

  lemma SwitchFindsNoRoom(w: World, fb: Screen)
    requires Usable(fb) && Inv(w) && Crowd(w, fb, MAX_CLIENTS, MAX_CLIENTS, MAX_CLIENTS)
    ensures Sound(SwitchStep(w))
    ensures var t := UpdateStep(SwitchStep(w)); Forgotten(t) && !t.owed && t.active
  {
    hide C.Inv, C.Starved, SwitchStep, Crowd, Wake;
    SwitchKeeps(w);
    var s := SwitchStep(w);
    SwitchedCrowd(w, fb);
    NoRequests(FlagsOf(s, s.syncList));
  }

  /** After the switch the victim is focused and still starved, and the table holds only the others. */
  lemma SwitchedCrowd(w: World, fb: Screen)
    requires Usable(fb) && Inv(w) && Crowd(w, fb, MAX_CLIENTS, MAX_CLIENTS, MAX_CLIENTS)
    ensures var s := SwitchStep(w);
            && s.screens != [] && s.screens[0] == VICTIM && VICTIM in s.conns
            && C.Starved(s.conns[VICTIM]) && Shown(s.conns[VICTIM])
            && s.syncList == w.syncList && s.vblanks == 0 && s.active && !s.owed
            && forall i :: 0 <= i < |s.syncList| ==> s.syncList[i] in s.conns && !s.conns[s.syncList[i]].peer.syncFlags.vblank
  {
    hide C.Inv, Wake, C.Starved, C.Push, C.Fullscreen, Idle, Queue;
    FullTable(w, fb);
    VictimIsSound(w, fb);
    RotateDistinct(w.screens);
    var t := w.(screens := w.screens[1..] + [w.screens[0]]);
    ResyncSound(t);
    hide Sound, Crowd, Ids;
    assert t.screens[0] == VICTIM;
    StillStarved(w.conns[VICTIM], fb);
  }

  lemma VictimIsSound(w: World, fb: Screen)
    requires Usable(fb) && Sound(w) && Crowd(w, fb, MAX_CLIENTS, MAX_CLIENTS, MAX_CLIENTS)
    ensures VICTIM in w.conns && C.Inv(w.conns[VICTIM], fb) && Shown(w.conns[VICTIM]) && C.Starved(w.conns[VICTIM])
    ensures |w.screens| >= 2 && w.screens[1] == VICTIM && w.vblanks == 0 && w.active && !w.owed
  {
    hide C.Inv, C.Starved, Idle;
  }

  /** The table is full of clients that have never asked for a vblank. */
  lemma FullTable(w: World, fb: Screen)
    requires Usable(fb) && Crowd(w, fb, MAX_CLIENTS, MAX_CLIENTS, MAX_CLIENTS)
    ensures !HasRoom(w.syncList, VICTIM)
    ensures forall i :: 0 <= i < |w.syncList| ==>
              w.syncList[i] != VICTIM && w.syncList[i] in w.conns && !w.conns[w.syncList[i]].peer.syncFlags.vblank
  {
    hide C.Starved;
  }

  lemma StillStarved(c: C.Conn, fb: Screen)
    requires C.Inv(c, fb) && Shown(c) && C.Starved(c)
    ensures c.peer.width > 0 && c.peer.height > 0 && |c.peer.slots| <= DMG_SLOTS
    ensures C.Starved(C.Push(C.Fullscreen(c, fb), Input)) && Shown(C.Push(C.Fullscreen(c, fb), Input))
  {
    C.FullscreenKeeps(c, fb);
    hide C.Inv, HandleSync;
    var d := C.Push(C.Fullscreen(c, fb), Input);
    assert C.Unseen(d) == C.Unseen(c) + [Input];
  }

  lemma {:induction false} NoRequests(flags: seq<SyncFlags>)
    requires forall i :: 0 <= i < |flags| ==> !flags[i].vblank
    ensures Requests(flags) == 0
  {
    if flags != [] {
      NoRequests(flags[..|flags| - 1]);
    }
  }

  // ---------------------------------------------------------------------------------------
  // The exact condition

  /** Where a server is used: with how many clients at a time, whether the terminal is ever switched away,
      and whether a flush of the input devices can fail, as it does for an unplugged device. */
  datatype Site = Site(clients: nat, switching: bool, unplugging: bool)

  ghost predicate Admits(fb: Screen, site: Site, es: seq<Step>) {
    && Within(fb, es, site.clients)
    && (TallyOf(es).away ==> site.switching)
    && (TallyOf(es).failed ==> site.unplugging)
  }

  /** On a screen that clients can register with, no run at a site ever loses a wake-up if and only if the
      screen is a whole number of grid cells wide, the table of pending syncs has an entry for each
      client, and the terminal is not switched away where flushes can fail. */
  lemma WakeUpsAreSafeIff(fb: Screen, site: Site)
    requires Usable(fb) && site.clients > 0
    ensures (forall es :: Admits(fb, site, es) ==> Awake(Run(fb, es)))
            <==> && fb.width % fb.align == 0
                 && site.clients <= MAX_CLIENTS
                 && !(site.switching && site.unplugging)
  {
    hide Forgotten;
    if fb.width % fb.align != 0 {
      var es := WakeUpLostToRefusal(fb);
      MoreRoom(fb, es, 1, site.clients);
      ForgottenSleeps(fb, es);
    } else if site.clients > MAX_CLIENTS {
      var es := WakeUpLostToFullTable(fb);
      MoreRoom(fb, es, MAX_CLIENTS + 1, site.clients);
      ForgottenSleeps(fb, es);
    } else if site.switching && site.unplugging {
      var es := WakeUpLostToFlush(fb);
      MoreRoom(fb, es, 1, site.clients);
      ForgottenSleeps(fb, es);
    } else {
      forall es | Admits(fb, site, es)
        ensures Awake(Run(fb, es))
      {
        MoreRoom(fb, es, site.clients, MAX_CLIENTS);
        Undisturbed(fb, es);
        NoLostWakeUp(fb, es);
      }
    }
  }

  lemma ForgottenSleeps(fb: Screen, es: seq<Step>)
    requires var w := Run(fb, es); Forgotten(w) && (w.owed ==> w.active && !w.unmute)
    ensures !Awake(Run(fb, es))
  {
    hide Run, C.Inv;
  }

  /** When the terminal stays, or every flush succeeds, no resynchronisation that is due is given up. */
  lemma {:induction false} Undisturbed(fb: Screen, es: seq<Step>)
    requires !TallyOf(es).away || !TallyOf(es).failed
    ensures ResyncsSucceed(fb, es)
    ensures !TallyOf(es).away ==> Run(fb, es).active && !Run(fb, es).owed
  {
    hide Sound, Wake, Next;
    if es != [] {
      var rest, e := es[..|es| - 1], es[|es| - 1];
      Undisturbed(fb, rest);
      if !TallyOf(es).away {
        ActiveStays(Run(fb, rest), e);
      }
    }
  }

  lemma {:induction false} MoreRoom(fb: Screen, es: seq<Step>, m: nat, n: nat)
    requires Within(fb, es, m) && m <= n
    ensures Within(fb, es, n)
    decreases |es|
  {
    if es != [] {
      MoreRoom(fb, es[..|es| - 1], m, n);
    }
  }
}
