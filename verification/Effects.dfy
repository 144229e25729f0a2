/** What each step of the whole server does to whom, and frames from the request of a client to its
    acknowledgement (server.c, fb.c, input.c, client.c). */
module Effects {
  import opened Common
  import opened Blit
  import opened ClientRecord
  import opened Handshake
  import opened Lists
  import opened Session
  import opened LostWakeUps
  import Damage
  import C = Conversation

  // ---------------------------------------------------------------------------------------
  // Whom a step concerns

  function Focus(w: World): set<Id> {
    if w.screens == [] then {} else {w.screens[0]}
  }

  /** The client a step names, and the focused one where the step sends it something or reports it. */
  function Concerned(w: World, e: Step): set<Id>
    requires Inv(w)
  {
    match e
    case Accept(id, _) => {id}
    case Client(id, _) => {id}
    case Serve(id, _) => {id} + Focus(Next(w, e))
    case Drop(id) => {id} + Focus(Next(w, e))
    case Update => set x | x in w.conns && w.conns[x].gone
    case Vblank(_) => Focus(w)
    case Switch => Focus(Next(w, e))
    case InputEvent(_, _) => Focus(w)
    case Deactivate => {}
    case Activate(_) => {}
  }

  /** Clients do not interfere: a step leaves every conversation but those it concerns as it was. */
  lemma OthersUntouched(w: World, e: Step, x: Id)
    requires Inv(w) && x in w.conns && x !in Concerned(w, e)
    ensures x in Next(w, e).conns && Next(w, e).conns[x] == w.conns[x]
  {
    hide C.Inv, Wake, Handle, Perform, C.Serve, C.Remove, C.Flush, C.Fullscreen, C.Push, Shown, C.Starved;
    match e
    case Serve(id, env) => ServedOthers(w, id, env, x);
    case Drop(id) => DroppedOthers(w, id, x);
    case InputEvent(forward, flushed) => InputOthers(w, forward, flushed, x);
    case Switch => SwitchOthers(w, x);
    case _ =>
  }

  lemma ResyncOthers(w: World, x: Id)
    requires Sound(w) && x in w.conns && x !in Focus(w)
    ensures x in Resync(w).conns && Resync(w).conns[x] == w.conns[x]
  {
    hide C.Inv, C.Fullscreen;
  }

  lemma RemovedOthers(w: World, id: Id, c: C.Conn, x: Id)
    requires Sound(w) && id in w.conns && !w.conns[id].gone && x in w.conns && x != id
    requires C.Inv(C.Remove(c), w.fb) && c.peer.connected == w.conns[id].peer.connected
    requires x !in Focus(RemoveClient(w, id, c))
    ensures x in RemoveClient(w, id, c).conns && RemoveClient(w, id, c).conns[x] == w.conns[x]
  {
    hide C.Inv, C.Remove, Resync, Sound;
    var u := w.(conns := w.conns[id := C.Remove(c)], screens := Without(w.screens, id));
    TakenOut(w, id, c);
    if c.peer.connected {
      ResyncSound(u);
      ResyncOthers(u, x);
    }
  }

  lemma ServedOthers(w: World, id: Id, env: Env, x: Id)
    requires Inv(w) && x in w.conns && x !in Concerned(w, Serve(id, env))
    ensures var t := CallbackStep(w, id, env); x in t.conns && t.conns[x] == w.conns[x]
  {
    assert id in w.conns ==> |w.conns[id].peer.slots| <= DMG_SLOTS;
    hide C.Inv, Wake, Handle, C.Serve, RemoveClient;
    if id in w.conns && !w.conns[id].gone && w.conns[id].toServer != [] {
      var c := w.conns[id];
      ServeShows(c, w.fb, env);
      if Dropped(w, id, Handle(c.peer, w.fb, c.toServer[0], env)) {
        DroppedIsSound(c, w.fb, env);
        RemovedOthers(w, id, C.Serve(c, w.fb, env), x);
      }
    }
  }

  lemma DroppedOthers(w: World, id: Id, x: Id)
    requires Inv(w) && x in w.conns && x !in Concerned(w, Drop(id))
    ensures var t := DropStep(w, id); x in t.conns && t.conns[x] == w.conns[x]
  {
    hide C.Inv, Wake, RemoveClient;
    if id in w.conns && !w.conns[id].gone {
      C.RemoveKeeps(w.conns[id], w.fb);
      RemovedOthers(w, id, w.conns[id], x);
    }
  }

  lemma SwitchOthers(w: World, x: Id)
    requires Inv(w) && x in w.conns && x !in Focus(SwitchStep(w))
    ensures x in SwitchStep(w).conns && SwitchStep(w).conns[x] == w.conns[x]
  {
    hide C.Inv, Wake, Resync, C.Push;
    if |w.screens| >= 2 {
      RotateDistinct(w.screens);
      var u := w.(screens := w.screens[1..] + [w.screens[0]]);
      ResyncSound(u);
      ResyncOthers(u, x);
    }
  }

  lemma InputOthers(w: World, forward: bool, flushed: bool, x: Id)
    requires Inv(w) && x in w.conns && x !in Focus(w)
    ensures var t := InputStep(w, forward, flushed); x in t.conns && t.conns[x] == w.conns[x]
  {
    hide C.Inv, Wake, UpdateState, C.Push;
    UpdateStateSound(w, flushed);
    UnmutedOthers(w, flushed, x);
  }

  lemma UnmutedOthers(w: World, flushed: bool, x: Id)
    requires Inv(w) && x in w.conns && x !in Focus(w)
    ensures var t := UpdateState(w, flushed); x in t.conns && t.conns[x] == w.conns[x] && t.screens == w.screens
  {
    hide C.Inv, Wake, Resync, C.Push;
    if w.unmute {
      PushSound(w, Input);
      var u := PushFocused(w, Input).(unmute := false);
      if flushed {
        ResyncSound(u);
        ResyncOthers(u, x);
      }
    }
  }

  // ---------------------------------------------------------------------------------------
  // What it does to them

  /** A connection that ends: the client is off the screens, the others keep their order, it is told if it
      was connected, and its record waits to be freed. */
  lemma DropEffect(w: World, id: Id)
    requires Inv(w) && id in w.conns && !w.conns[id].gone
    ensures var t := Next(w, Drop(id));
            && id in t.conns && t.conns[id].gone && t.screens == Without(w.screens, id) && id !in t.screens
            && t.conns[id].toClient == w.conns[id].toClient + (if Shown(w.conns[id]) then [Refusal(true)] else [])
            && t.vblanks == w.vblanks
  {
    hide DropStep, Wake, C.Inv, Sound, Shown;
    DropStepEffect(w, id);
  }

  lemma DropStepEffect(w: World, id: Id)
    requires Inv(w) && id in w.conns && !w.conns[id].gone
    ensures var t := DropStep(w, id);
            && id in t.conns && t.conns[id].gone && t.screens == Without(w.screens, id) && id !in t.screens
            && t.conns[id].toClient == w.conns[id].toClient + (if Shown(w.conns[id]) then [Refusal(true)] else [])
            && t.vblanks == w.vblanks
  {
    hide C.Inv, Wake, C.Fullscreen;
    C.RemoveKeeps(w.conns[id], w.fb);
    TakenOut(w, id, w.conns[id]);
    WithoutFacts(w.screens, id);
    WithoutAbsent'(w.screens, id);
    ResyncSound(w.(conns := w.conns[id := C.Remove(w.conns[id])], screens := Without(w.screens, id)));
  }

  lemma WithoutAbsent'(s: seq<Id>, x: Id)
    ensures x !in s ==> Without(s, x) == s
  {
    if x !in s {
      WithoutAbsent(s, x);
    }
  }

  /** The clients of `list` that asked for a vblank. */
  function AskingIn(w: World, list: seq<Id>): set<Id>
    requires forall id :: id in list ==> id in w.conns
  {
    set id | id in list && w.conns[id].peer.syncFlags.vblank
  }

  /** The end of a round: the records of removed clients are freed and no other is touched; every pending
      sync is done, and an active server asks for one vblank per client that asked for one. */
  lemma UpdateEffect(w: World)
    requires Inv(w)
    ensures var t := Next(w, Update);
            && (forall x :: x in t.conns <==> x in w.conns && !w.conns[x].gone)
            && (forall x :: x in t.conns ==> t.conns[x] == w.conns[x])
            && t.screens == w.screens && t.syncList == []
            && t.vblanks == w.vblanks + if w.active then |AskingIn(w, w.syncList)| else 0
  {
    hide C.Inv, Wake, Requests, AskingIn;
    CountAsking(w, w.syncList);
  }

  lemma {:induction false} CountAsking(w: World, list: seq<Id>)
    requires Distinct(list) && forall id :: id in list ==> id in w.conns
    ensures Requests(FlagsOf(w, list)) == |AskingIn(w, list)|
  {
    if list == [] {
      assert AskingIn(w, list) == {};
    } else {
      var rest, last := list[..|list| - 1], list[|list| - 1];
      CountAsking(w, rest);
      LastFlag(w, list);
      LastAsking(w, list);
      hide FlagsOf, AskingIn;
    }
  }

  lemma LastFlag(w: World, list: seq<Id>)
    requires list != [] && forall id :: id in list ==> id in w.conns
    ensures var n, f := |list| - 1, FlagsOf(w, list);
            |f| == n + 1 && f[..n] == FlagsOf(w, list[..n]) && f[n] == w.conns[list[n]].peer.syncFlags
  {
  }

  lemma LastAsking(w: World, list: seq<Id>)
    requires list != [] && Distinct(list) && forall id :: id in list ==> id in w.conns
    ensures var n := |list| - 1;
            |AskingIn(w, list)| == |AskingIn(w, list[..n])| + if w.conns[list[n]].peer.syncFlags.vblank then 1 else 0
  {
    var n := |list| - 1;
    var rest, last := list[..n], list[n];
    assert list == rest + [last] && last !in rest;
    assert AskingIn(w, list) == AskingIn(w, rest) + if w.conns[last].peer.syncFlags.vblank then {last} else {};
  }

  /** A display callback: the events it is for are used up, the focused client's damage is cleared and it
      gets one acknowledgement, unless a copy was refused. */
  lemma VblankEffect(w: World, n: nat)
    requires Inv(w) && 0 < n <= w.vblanks
    ensures var t := Next(w, Vblank(n));
            && t.vblanks == w.vblanks - n && t.screens == w.screens && t.syncList == w.syncList
            && t.conns.Keys == w.conns.Keys
            && (w.screens != [] ==>
                  var f := w.screens[0];
                  var c, d := w.conns[f], t.conns[f];
                  && (C.AnyRefused(w.fb, c.peer.slots) ==> d == c)
                  && (!C.AnyRefused(w.fb, c.peer.slots) ==>
                        && d.peer.slots == [] && d.toClient == c.toClient + [VsyncAck]
                        && d.toServer == c.toServer && d.client == c.client && !d.gone))
  {
    hide C.Inv, Wake, C.AnyRefused;
    if w.screens != [] {
      KeySetKept(w.conns, w.screens[0], C.Flush(w.conns[w.screens[0]], w.fb));
    }
  }

  /** An input event reaches the focused client, after the reset that is due when input was muted. */
  lemma InputEffect(w: World, forward: bool, flushed: bool)
    requires Inv(w) && w.screens != []
    ensures var t, f := Next(w, InputEvent(forward, flushed)), w.screens[0];
            && t.screens == w.screens && !t.unmute && t.vblanks == w.vblanks && f in t.conns
            && t.conns[f].toClient ==
               w.conns[f].toClient + (if w.unmute then [Input] else []) + (if forward then [Input] else [])
            && (!(w.unmute && flushed) ==> t.conns[f].peer == w.conns[f].peer && t.syncList == w.syncList)
            && (w.unmute && flushed ==> Presented(w, t, f))
  {
    hide InputStep, Presented, Wake, C.Inv, Sound;
    InputStepEffect(w, forward, flushed);
  }

  lemma InputStepEffect(w: World, forward: bool, flushed: bool)
    requires Inv(w) && w.screens != []
    ensures var t, f := InputStep(w, forward, flushed), w.screens[0];
            && t.screens == w.screens && !t.unmute && t.vblanks == w.vblanks && f in t.conns
            && t.conns[f].toClient ==
               w.conns[f].toClient + (if w.unmute then [Input] else []) + (if forward then [Input] else [])
            && (!(w.unmute && flushed) ==> t.conns[f].peer == w.conns[f].peer && t.syncList == w.syncList)
            && (w.unmute && flushed ==> Presented(w, t, f))
  {
    FocusListed(w);
    hide C.Inv, Wake, Sound, UpdateState, Presented, PushFocused, Resync;
    UpdateStateSound(w, flushed);
    UpdateStateEffect(w, flushed);
    var u := UpdateState(w, flushed);
    ForwardEffect(u);
    if forward {
      SamePresented(w, u, PushFocused(u, Input), w.screens[0]);
    }
  }

  lemma FocusListed(w: World)
    requires Sound(w) && w.screens != []
    ensures w.screens[0] in w.conns
  {
  }

  lemma ForwardEffect(u: World)
    requires Sound(u) && u.screens != []
    ensures var t, f := PushFocused(u, Input), u.screens[0];
            && f in u.conns && f in t.conns && t.conns[f] == u.conns[f].(toClient := u.conns[f].toClient + [Input])
            && t == u.(conns := t.conns)
  {
    hide C.Inv;
  }

  lemma SamePresented(w: World, t: World, u: World, f: Id)
    requires f in w.conns && f in t.conns && f in u.conns
    requires u.conns[f].peer == t.conns[f].peer && u.syncList == t.syncList
    ensures Presented(w, t, f) == Presented(w, u, f)
  {
  }

  lemma UpdateStateEffect(w: World, flushed: bool)
    requires Inv(w) && w.screens != []
    ensures var t, f := UpdateState(w, flushed), w.screens[0];
            && t.screens == w.screens && !t.unmute && t.vblanks == w.vblanks && f in t.conns
            && t.conns[f].toClient == w.conns[f].toClient + (if w.unmute then [Input] else [])
            && (!(w.unmute && flushed) ==> t.conns[f].peer == w.conns[f].peer && t.syncList == w.syncList)
            && (w.unmute && flushed ==> Presented(w, t, f))
  {
    hide C.Inv, Wake, Resync, Damage.Covered;
    if w.unmute {
      PushSound(w, Input);
      var u := PushFocused(w, Input).(unmute := false);
      if flushed {
        ResyncPresents(u);
      }
    }
  }

  /** Client `f` has been reported whole: its whole sprite awaits a copy, whatever awaited one still does, and
      its sync is pending with a vblank asked for, unless the table was full. */
  ghost predicate Presented(w: World, t: World, f: Id)
    requires f in w.conns && f in t.conns
  {
    var p, q := w.conns[f].peer, t.conns[f].peer;
    && (forall row: nat, col: nat :: row < p.height && col < p.width ==> Damage.Covered(q.slots, row, col))
    && (forall row: nat, col: nat :: Damage.Covered(p.slots, row, col) ==> Damage.Covered(q.slots, row, col))
    && q.syncFlags.vblank && (f in t.syncList <==> f in w.syncList || |w.syncList| < MAX_CLIENTS)
    && q == p.(slots := q.slots, syncFlags := q.syncFlags)
  }

  lemma ResyncPresents(w: World)
    requires Sound(w) && w.screens != []
    ensures var t, f := Resync(w), w.screens[0];
            && f in t.conns && Presented(w, t, f)
            && t.conns[f] == w.conns[f].(peer := t.conns[f].peer)
            && t.vblanks == w.vblanks && t.screens == w.screens
  {
    var c := w.conns[w.screens[0]];
    C.FullscreenKeeps(c, w.fb);
    WholeIsCovered(c, w.fb);
    hide C.Inv, Damage.Covered;
  }

  lemma WholeIsCovered(c: C.Conn, fb: Screen)
    requires C.Inv(c, fb) && !c.gone && c.peer.connected
    ensures c.peer.width > 0 && c.peer.height > 0 && |c.peer.slots| <= DMG_SLOTS
    ensures var p, q := c.peer, C.Fullscreen(c, fb).peer;
            && q == p.(slots := q.slots, syncFlags := q.syncFlags) && q.syncFlags.vblank
            && (forall row: nat, col: nat :: row < p.height && col < p.width ==> Damage.Covered(q.slots, row, col))
            && (forall row: nat, col: nat :: Damage.Covered(p.slots, row, col) ==> Damage.Covered(q.slots, row, col))
  {
    C.FullscreenKeeps(c, fb);
    var d := WholeOf(c.peer.width, c.peer.height);
    Damage.AccumulateCovers(c.peer.slots, d, fb.width, fb.height);
    hide C.Inv, Damage.Covered, Damage.Accumulate;
    assert forall row: nat, col: nat :: row < c.peer.height && col < c.peer.width ==> Damage.Covers(d, row, col);
  }

  /** A screen switch: the client that was next is focused, reported whole, and told to reset its input. */
  lemma SwitchEffect(w: World)
    requires Inv(w) && |w.screens| >= 2
    ensures var t, f := Next(w, Switch), w.screens[1];
            && t.screens == w.screens[1..] + [w.screens[0]] && t.vblanks == w.vblanks && f in t.conns
            && Presented(w, t, f)
            && t.conns[f].toClient == w.conns[f].toClient + [Input] && t.conns[f].toServer == w.conns[f].toServer
  {
    hide C.Inv, Wake, Resync, Damage.Covered;
    RotateDistinct(w.screens);
    var u := w.(screens := w.screens[1..] + [w.screens[0]]);
    ResyncPresents(u);
  }

  /** A message of a client is served: it is taken off the channel, the record and the answer are those of the
      handler, and a client that is refused, or whose sync finds no room, is removed. */
  lemma ServeEffect(w: World, id: Id, env: Env)
    requires Inv(w) && id in w.conns && !w.conns[id].gone && w.conns[id].toServer != []
    ensures var c, t := w.conns[id], Next(w, Serve(id, env));
            && |c.peer.slots| <= DMG_SLOTS && id in t.conns && t.vblanks == w.vblanks
            && var r, d := Handle(c.peer, w.fb, c.toServer[0], env), t.conns[id];
               && d.toServer == c.toServer[1..] && d.client == c.client
               && (d.gone <==> !r.ok || (r.enlist && id !in w.syncList && |w.syncList| >= MAX_CLIENTS))
               && (!d.gone ==>
                     && d.peer == r.peer && d.toClient == c.toClient + r.out
                     && t.screens == w.screens + (if r.deed == Some(Connected) then [id] else [])
                     && (id in t.syncList <==> id in w.syncList || r.enlist))
               && (d.gone ==>
                     && t.screens == Without(w.screens, id) && d.peer == r.peer
                     && d.toClient == c.toClient + r.out + if Shown(c) then [Refusal(true)] else [])
  {
    ServedFacts(w, id, env);
    hide C.Inv, Sound, Wake, Handle, RemoveClient, Shown, C.Serve;
    var c := w.conns[id];
    if Dropped(w, id, Handle(c.peer, w.fb, c.toServer[0], env)) {
      RemovedEffect(w, id, env);
    } else {
      KeptEffect(w, id, env);
    }
  }

  lemma ServedFacts(w: World, id: Id, env: Env)
    requires Inv(w) && id in w.conns && !w.conns[id].gone && w.conns[id].toServer != []
    ensures var c := w.conns[id];
            && |c.peer.slots| <= DMG_SLOTS
            && var r := Handle(c.peer, w.fb, c.toServer[0], env);
               Dropped(w, id, r) ==>
                 r.peer.connected == c.peer.connected && C.Inv(C.Remove(C.Serve(c, w.fb, env)), w.fb)
  {
    var c := w.conns[id];
    assert |c.peer.slots| <= DMG_SLOTS;
    ServeShows(c, w.fb, env);
    hide C.Inv, Wake, Handle;
    if Dropped(w, id, Handle(c.peer, w.fb, c.toServer[0], env)) {
      DroppedIsSound(c, w.fb, env);
    }
  }

  lemma KeptEffect(w: World, id: Id, env: Env)
    requires Sound(w) && id in w.conns && !w.conns[id].gone && w.conns[id].toServer != []
    requires |w.conns[id].peer.slots| <= DMG_SLOTS
    requires !Dropped(w, id, Handle(w.conns[id].peer, w.fb, w.conns[id].toServer[0], env))
    ensures var c, t := w.conns[id], ServeStep(w, id, env);
            && id in t.conns && t.vblanks == w.vblanks
            && var r, d := Handle(c.peer, w.fb, c.toServer[0], env), t.conns[id];
               && d.toServer == c.toServer[1..] && d.client == c.client && !d.gone
               && d.peer == r.peer && d.toClient == c.toClient + r.out
               && t.screens == w.screens + (if r.deed == Some(Connected) then [id] else [])
               && (id in t.syncList <==> id in w.syncList || r.enlist)
  {
    hide C.Inv, Sound, Handle, RemoveClient, Shown;
  }

  lemma RemovedEffect(w: World, id: Id, env: Env)
    requires Sound(w) && id in w.conns && !w.conns[id].gone && w.conns[id].toServer != []
    requires |w.conns[id].peer.slots| <= DMG_SLOTS
    requires var c, r := w.conns[id], Handle(w.conns[id].peer, w.fb, w.conns[id].toServer[0], env);
             && r.peer.connected == c.peer.connected && C.Inv(C.Remove(C.Serve(c, w.fb, env)), w.fb)
    ensures var c := w.conns[id];
            var r, t := Handle(c.peer, w.fb, c.toServer[0], env), RemoveClient(w, id, C.Serve(c, w.fb, env));
            && id in t.conns && t.vblanks == w.vblanks && t.screens == Without(w.screens, id)
            && var d := t.conns[id];
               && d.gone && d.toServer == c.toServer[1..] && d.client == c.client && d.peer == r.peer
               && d.toClient == c.toClient + r.out + if Shown(c) then [Refusal(true)] else []
  {
    var c := w.conns[id];
    hide C.Inv, Handle, RemoveClient, Sound;
    RemoveEffect(w, id, C.Serve(c, w.fb, env));
  }

  lemma RemoveEffect(w: World, id: Id, c: C.Conn)
    requires Sound(w) && id in w.conns && !w.conns[id].gone
    requires C.Inv(C.Remove(c), w.fb) && c.peer.connected == w.conns[id].peer.connected
    ensures var t := RemoveClient(w, id, c);
            && id in t.conns && t.conns[id] == C.Remove(c) && t.screens == Without(w.screens, id)
            && t.vblanks == w.vblanks
  {
    hide C.Inv, C.Remove, C.Fullscreen;
    TakenOut(w, id, c);
    WithoutFacts(w.screens, id);
    ResyncSound(w.(conns := w.conns[id := C.Remove(c)], screens := Without(w.screens, id)));
  }

  /** A new connection: greeted, not registered, on no screen; a foreign program may then send anything. */
  lemma AcceptEffect(w: World, id: Id, foreign: bool, m: Inbound)
    requires Inv(w) && id !in w.conns
    ensures var t := Next(w, Accept(id, foreign));
            && t == w.(conns := t.conns) && t.conns.Keys == w.conns.Keys + {id}
            && var c := t.conns[id];
               && c.toClient == [ServInfo] && c.toServer == [] && !c.gone && !c.peer.handshaking && !c.peer.connected
               && c.foreign == foreign
               && (foreign ==> C.Inv(c, w.fb) && Perform(c, w.fb, Forge(m)) == c.(toServer := [m]))
  {
    C.NewKeeps(w.fb, foreign);
  }

  /** The signals of a terminal switch change two flags and nothing else. */
  lemma SignalEffect(w: World, master: bool)
    requires Inv(w)
    ensures Next(w, Deactivate) == w.(active := false)
    ensures Next(w, Activate(master)) == w.(active := w.active || master, unmute := true)
  {
    hide C.Inv, Wake, Sound;
  }

  /** A library client in its main loop reads any run of the messages queued for it, in order and without loss;
      may register with any size the screen holds; and may stop. */
  lemma MainLoopActs(c: C.Conn, fb: Screen, n: nat, width: nat, height: nat)
    requires C.Inv(c, fb) && !c.foreign && c.client.mode == C.Dispatching
    ensures c.client.buf == [] && 0 < n <= |c.toClient| ==>
              var d := Perform(c, fb, Read(n));
              && d.client == c.client.(buf := c.toClient[..n])
              && d.client.buf + d.toClient == c.toClient && d.toServer == c.toServer
    ensures c.client.known && width <= fb.width && height <= fb.height ==>
              Perform(c, fb, Act.Register(width, height)).toServer == c.toServer + [Inbound.Register(width, height, 32)]
    ensures (width > fb.width || height > fb.height) ==> Perform(c, fb, Act.Register(width, height)) == c
    ensures Perform(c, fb, Stop) == c.(client := c.client.(mode := C.Stopped))
  {
    assert C.Unseen(c) == c.client.buf + c.toClient;
    if c.client.buf == [] && 0 < n <= |c.toClient| {
      assert FdByte !in c.toClient;
    }
  }

  /** In the handshake it drains until nothing is queued, and then asks; it takes the descriptor byte when it comes,
      and may give up at any time. */
  lemma HandshakeActs(c: C.Conn, fb: Screen, mapOk: bool)
    requires C.Inv(c, fb) && !c.foreign
    ensures c.client.mode == C.Draining ==>
              Perform(c, fb, Drain) ==
              c.(client := c.client.(mode := C.AwaitingFd), toServer := c.toServer + [Ack(SEND_FD)])
    ensures c.client.mode == C.AwaitingFd ==> Perform(c, fb, TimeOut) == C.TimeOut(c)
    ensures c.client.mode == C.AwaitingFd && c.toClient == [] ==> Perform(c, fb, Await(mapOk)) == c
    ensures c.client.mode == C.AwaitingFd && c.toClient != [] ==>
              Perform(c, fb, Await(true)) ==
              c.(client := c.client.(mode := C.Dispatching, handshaking := false,
                                     mapping := Some((c.client.width, c.client.height))),
                 toServer := c.toServer + [Ack(ESTABLISHED)], toClient := [])
  {
    assert C.Unseen(c) == c.client.buf + c.toClient;
    if c.client.mode == C.AwaitingFd && c.toClient != [] {
      assert C.Unseen(c) == [FdByte];
      assert c.client.buf == [] && c.toClient == C.Unseen(c);
    }
    if c.client.mode == C.Draining {
      assert c.toClient == [];
    }
  }

  // ---------------------------------------------------------------------------------------
  // Who gets in

  /** Serving a registration: with good answers from the kernel the client is offered its descriptor for the
      size and depth it asked for, if the screen holds them; otherwise it is removed. */
  lemma RegistrationServed(w: World, id: Id, width: nat, height: nat, bpp: nat, env: Env)
    requires Inv(w) && id in w.conns && !w.conns[id].gone && env.memfd != -1 && env.sendOk
    requires var c := w.conns[id];
             && c.toServer != [] && c.toServer[0] == Inbound.Register(width, height, bpp)
             && !c.peer.handshaking && !c.peer.connected
    ensures var t := Next(w, Serve(id, env));
            && id in t.conns && t.screens == w.screens
            && var c := t.conns[id];
               if Fits(w.fb, width, height, bpp) then
                 && !c.gone && c.peer.handshaking && c.peer.recvFdWait && c.toClient == w.conns[id].toClient + [RecvFd]
                 && c.peer.width == width && c.peer.height == height && c.peer.bpp == bpp
               else
                 c.gone && !c.peer.connected && c.toClient == w.conns[id].toClient + [Refusal(false)]
  {
    hide C.Inv, Sound, Wake, Handle, Next;
    NotShown(w, id);
    RegistrationIff(w.conns[id].peer, w.fb, width, height, bpp, env);
    ServeEffect(w, id, env);
  }

  lemma NotShown(w: World, id: Id)
    requires Sound(w) && id in w.conns && !w.conns[id].peer.connected
    ensures Without(w.screens, id) == w.screens && |w.conns[id].peer.slots| <= DMG_SLOTS
  {
    WithoutAbsent(w.screens, id);
  }

  // ---------------------------------------------------------------------------------------
  // Frames

  /** Client `id` is focused, runs libspr16, is connected, and has nothing under way; nobody else has. */
  ghost predicate Ready(w: World, fb: Screen, id: Id) {
    && w.fb == fb && w.screens != [] && w.screens[0] == id && id in w.conns
    && w.active && w.syncList == [] && w.vblanks == 0 && (forall x :: x in w.conns ==> !w.conns[x].gone)
    && Rests(w.conns[id])
  }

  predicate Rests(c: C.Conn) {
    && !c.foreign && !c.gone && c.peer.connected && c.peer.mapped && c.peer.slots == []
    && c.client.mode == C.Dispatching && !c.client.handshaking && !c.client.waitVsync && c.client.buf == []
    && c.toServer == [] && c.toClient == []
  }

  /** The client has asked for `d` to be shown, and waits. */
  function Asked(c: C.Conn, d: Region): C.Conn {
    c.(client := c.client.(waitVsync := true), toServer := [Sync(d, ONLY_VBLANK)])
  }

  /** The request is on record. */
  function Noted(c: C.Conn, d: Region): C.Conn {
    c.(client := c.client.(waitVsync := true),
       peer := c.peer.(slots := [d], syncFlags := Merge(c.peer.syncFlags, ONLY_VBLANK)))
  }

  /** Done: only the flag that it has ever asked for a vblank is left. */
  function Done(c: C.Conn): C.Conn {
    c.(peer := c.peer.(syncFlags := Merge(c.peer.syncFlags, ONLY_VBLANK)))
  }

  lemma AskStep(w: World, fb: Screen, id: Id, d: Region)
    requires Inv(w) && Ready(w, fb, id)
    ensures Next(w, Client(id, RequestSync(d, ONLY_VBLANK))) == With(w, id, Asked(w.conns[id], d))
  {
    hide C.Inv, Sound, Wake;
    assert [] + [Sync(d, ONLY_VBLANK)] == [Sync(d, ONLY_VBLANK)];
  }

  lemma NoteStep(w: World, u: World, fb: Screen, id: Id, d: Region)
    requires Inv(w) && id in w.conns && Ready(w, fb, id) && Damage.Accepted(fb.width, fb.height, d)
    requires Inv(u) && u == With(w, id, Asked(w.conns[id], d))
    ensures Next(u, Serve(id, Kernel)) == With(w, id, Noted(w.conns[id], d)).(syncList := [id])
  {
    hide Inv, Next, Ready, Noted, Asked, Rests, C.Serve, Handle, With;
    ReadyForOne(w, u, fb, id, d);
    Enlisted(u, id, Kernel);
    Again(w, id, Asked(w.conns[id], d), Noted(w.conns[id], d));
    SameList(w, u, id, Asked(w.conns[id], d), Noted(w.conns[id], d));
  }

  lemma Again(w: World, id: Id, a: C.Conn, b: C.Conn)
    ensures With(With(w, id, a), id, b) == With(w, id, b)
  {
    assert w.conns[id := a][id := b] == w.conns[id := b];
  }

  lemma SameList(w: World, u: World, id: Id, a: C.Conn, b: C.Conn)
    requires u == With(w, id, a) && u.syncList == [] && With(u, id, b) == With(w, id, b)
    ensures With(u, id, b).(syncList := u.syncList + [id]) == With(w, id, b).(syncList := [id])
  {
  }

  lemma ReadyForOne(w: World, u: World, fb: Screen, id: Id, d: Region)
    requires id in w.conns && Ready(w, fb, id) && Inv(u) && u == With(w, id, Asked(w.conns[id], d))
    requires Damage.Accepted(fb.width, fb.height, d)
    ensures id in u.conns && !u.conns[id].gone && u.conns[id].toServer != [] && |u.conns[id].peer.slots| <= DMG_SLOTS
    ensures u.fb == fb && u.syncList == []
    ensures var r := Handle(u.conns[id].peer, fb, u.conns[id].toServer[0], Kernel); r.ok && r.enlist && r.deed == None
    ensures C.Serve(u.conns[id], fb, Kernel) == Noted(w.conns[id], d)
  {
    NoteServed(w.conns[id], fb, d);
    hide C.Inv, Sound, Wake, C.Serve, Handle, Noted;
  }

  /** A sync that is accepted and not yet in the table. */
  lemma Enlisted(u: World, id: Id, env: Env)
    requires Inv(u) && id in u.conns && !u.conns[id].gone && u.conns[id].toServer != []
    requires |u.conns[id].peer.slots| <= DMG_SLOTS
    requires id !in u.syncList && |u.syncList| < MAX_CLIENTS
    requires var r := Handle(u.conns[id].peer, u.fb, u.conns[id].toServer[0], env); r.ok && r.enlist && r.deed == None
    ensures Next(u, Serve(id, env)) == With(u, id, C.Serve(u.conns[id], u.fb, env)).(syncList := u.syncList + [id])
  {
    hide C.Inv, Sound, Wake, C.Serve, Handle, RemoveClient;
  }

  lemma NoteServed(c: C.Conn, fb: Screen, d: Region)
    requires Rests(c) && Damage.Accepted(fb.width, fb.height, d)
    ensures var a := Asked(c, d);
            var r := Handle(a.peer, fb, a.toServer[0], Kernel);
            && r.ok && r.enlist && r.deed == None && C.Serve(a, fb, Kernel) == Noted(c, d)
  {
    assert [] + [d] == [d] && [Sync(d, ONLY_VBLANK)][1..] == [] && c.toClient + [] == c.toClient;
  }

  lemma RoundStep(w: World, u: World, fb: Screen, id: Id, d: Region)
    requires Inv(w) && Ready(w, fb, id) && Inv(u) && u == With(w, id, Noted(w.conns[id], d)).(syncList := [id])
    ensures Next(u, Update) == With(w, id, Noted(w.conns[id], d)).(vblanks := 1)
  {
    hide C.Inv, Sound, Wake, Requests;
    OneRequest(FlagsOf(u, [id]));
    assert (map x | x in u.conns && !u.conns[x].gone :: u.conns[x]) == u.conns;
  }

  /** The acknowledgement is on its way. */
  function Acked(c: C.Conn): C.Conn {
    Done(c).(client := c.client.(waitVsync := true), toClient := [VsyncAck])
  }

  lemma FlushStep(w: World, u: World, fb: Screen, id: Id, d: Region)
    requires Inv(w) && id in w.conns && Ready(w, fb, id)
    requires Inv(u) && u == With(w, id, Noted(w.conns[id], d)).(vblanks := 1)
    requires C.Copies(fb)
    ensures var t := Next(u, Vblank(1)); t == With(w, id, Acked(w.conns[id])).(strayed := t.strayed)
  {
    hide Sound, Wake, Next, Ready, C.Inv, C.Flush, C.Copies, Noted, Acked, Rests, With;
    ReadyToFlush(w, u, fb, id, d);
    OneVblank(u, id);
    Again(w, id, Noted(w.conns[id], d), Acked(w.conns[id]));
    SameCount(w, u, id, Noted(w.conns[id], d), Acked(w.conns[id]), Next(u, Vblank(1)));
  }

  lemma SameCount(w: World, u: World, id: Id, a: C.Conn, b: C.Conn, t: World)
    requires w.vblanks == 0 && u == With(w, id, a).(vblanks := 1) && With(With(w, id, a), id, b) == With(w, id, b)
    requires t == u.(conns := u.conns[id := b], vblanks := 0, strayed := t.strayed)
    ensures t == With(w, id, b).(strayed := t.strayed)
  {
  }

  lemma ReadyToFlush(w: World, u: World, fb: Screen, id: Id, d: Region)
    requires id in w.conns && Ready(w, fb, id) && Inv(u) && u == With(w, id, Noted(w.conns[id], d)).(vblanks := 1)
    requires C.Copies(fb)
    ensures u.screens != [] && u.screens[0] == id && u.vblanks == 1 && u.fb == fb && w.vblanks == 0
    ensures id in u.conns && C.Flush(u.conns[id], fb) == Acked(w.conns[id])
  {
    hide C.Inv, C.Flush, Acked, Wake, C.Copies;
    NotedFlushes(u.conns[id], w.conns[id], fb, d);
  }

  lemma OneVblank(u: World, id: Id)
    requires Inv(u) && u.screens != [] && u.screens[0] == id && u.vblanks == 1
    ensures id in u.conns
    ensures var t := Next(u, Vblank(1));
            t == u.(conns := u.conns[id := C.Flush(u.conns[id], u.fb)], vblanks := 0, strayed := t.strayed)
  {
    hide C.Inv, Wake, C.Flush, C.Strays;
  }

  lemma NotedFlushes(n: C.Conn, c: C.Conn, fb: Screen, d: Region)
    requires C.Inv(n, fb) && n == Noted(c, d) && Rests(c) && C.Copies(fb)
    ensures C.Flush(n, fb) == Acked(c)
  {
    C.NeverRefused(n, fb);
    hide C.Inv, C.AnyRefused, C.Copies;
    assert [] + [VsyncAck] == [VsyncAck];
  }

  /** The acknowledgement has been read. */
  function Woken(c: C.Conn): C.Conn {
    Done(c).(client := c.client.(waitVsync := true, buf := [VsyncAck]))
  }

  lemma ReadStep(w: World, u: World, fb: Screen, id: Id)
    requires Inv(w) && Ready(w, fb, id) && Inv(u) && u == With(w, id, Acked(w.conns[id])).(strayed := u.strayed)
    ensures Next(u, Client(id, Read(1))) == With(w, id, Woken(w.conns[id])).(strayed := u.strayed)
  {
    hide C.Inv, Sound, Wake;
    assert [VsyncAck][..1] == [VsyncAck] && [VsyncAck][1..] == [];
    assert w.conns[id := Acked(w.conns[id])][id := Woken(w.conns[id])] == w.conns[id := Woken(w.conns[id])];
  }

  lemma WakeStep(w: World, u: World, fb: Screen, id: Id)
    requires Inv(w) && Ready(w, fb, id) && Inv(u) && u == With(w, id, Woken(w.conns[id])).(strayed := u.strayed)
    ensures Next(u, Client(id, Dispatch)) == With(w, id, Done(w.conns[id])).(strayed := u.strayed)
  {
    hide C.Inv, Sound, Wake;
    assert [VsyncAck][1..] == [];
    assert w.conns[id := Woken(w.conns[id])][id := Done(w.conns[id])] == w.conns[id := Done(w.conns[id])];
  }

  /** One frame: the client reports a rectangle and asks for a vblank; its message is served, the round ends, the
      display calls back, and the client reads its acknowledgement.  It waited, with exactly that rectangle
      awaiting its copy, and afterwards it and everybody else are as before. */
  lemma OneFrame(fb: Screen, es: seq<Step>, id: Id, d: Region) returns (waiting: seq<Step>, t: seq<Step>)
    requires C.Copies(fb) && Ready(Run(fb, es), fb, id) && Damage.Accepted(fb.width, fb.height, d)
    ensures var c := Run(fb, es).conns[id];
            && Run(fb, waiting) == With(Run(fb, es), id, Noted(c, d)).(syncList := [id])
            && Run(fb, t) == With(Run(fb, es), id, Done(c)).(strayed := Run(fb, t).strayed)
    ensures Ready(Run(fb, t), fb, id)
  {
    assert id in Run(fb, es).conns;
    hide Run, Inv, Next, With, Ready, Asked, Noted, Acked, Woken, Done, C.Copies, TallyOf;
    var w := Run(fb, es);
    var asked := Then(fb, es, Client(id, RequestSync(d, ONLY_VBLANK)));
    AskStep(w, fb, id, d);
    waiting := Then(fb, asked, Serve(id, Kernel));
    NoteStep(w, Run(fb, asked), fb, id, d);
    var over := Then(fb, waiting, Update);
    RoundStep(w, Run(fb, waiting), fb, id, d);
    var acked := Then(fb, over, Vblank(1));
    FlushStep(w, Run(fb, over), fb, id, d);
    var read := Then(fb, acked, Client(id, Read(1)));
    t := Then(fb, read, Client(id, Dispatch));
    ReadStep(w, Run(fb, acked), fb, id);
    WakeStep(w, Run(fb, read), fb, id);
    StillReady(w, Run(fb, t), fb, id);
  }

  lemma StillReady(w: World, t: World, fb: Screen, id: Id)
    requires Ready(w, fb, id) && t == With(w, id, Done(w.conns[id])).(strayed := t.strayed)
    ensures Ready(t, fb, id)
  {
  }

  /** A client can go on like this for ever: any series of rectangles is shown one after the other, each
      acknowledged before the next. */
  lemma {:induction false} Frames(fb: Screen, es: seq<Step>, id: Id, ds: seq<Region>) returns (t: seq<Step>)
    requires C.Copies(fb) && Ready(Run(fb, es), fb, id)
    requires forall k :: 0 <= k < |ds| ==> Damage.Accepted(fb.width, fb.height, ds[k])
    ensures Ready(Run(fb, t), fb, id) && OnlyFlags(Run(fb, es), Run(fb, t), id)
    decreases |ds|
  {
    hide Run, C.Copies;
    if ds == [] {
      t := es;
      NoFlags(Run(fb, es), id);
    } else {
      var _, one := OneFrame(fb, es, id, ds[0]);
      t := Frames(fb, one, id, ds[1..]);
      MoreFlags(Run(fb, es), Run(fb, one), Run(fb, t), id);
    }
  }

  /** Nothing has changed but the flags in the record of `id`. */
  ghost predicate OnlyFlags(w: World, t: World, id: Id)
    requires id in w.conns && id in t.conns
  {
    && t == With(w, id, t.conns[id]).(strayed := t.strayed)
    && t.conns[id] == w.conns[id].(peer := w.conns[id].peer.(syncFlags := t.conns[id].peer.syncFlags))
  }

  lemma NoFlags(w: World, id: Id)
    requires id in w.conns
    ensures OnlyFlags(w, w, id)
  {
    assert w.conns[id := w.conns[id]] == w.conns;
  }

  lemma MoreFlags(w: World, u: World, t: World, id: Id)
    requires id in w.conns && id in u.conns && id in t.conns
    requires u == With(w, id, Done(w.conns[id])).(strayed := u.strayed) && OnlyFlags(u, t, id)
    ensures OnlyFlags(w, t, id)
  {
    assert w.conns[id := Done(w.conns[id])][id := t.conns[id]] == w.conns[id := t.conns[id]];
  }

  /** From the connection on: on a fresh server a library client of any size the screen holds connects and shows
      any series of rectangles. */
  lemma FirstClientShows(fb: Screen, width: nat, height: nat, ds: seq<Region>) returns (t: seq<Step>)
    requires C.Copies(fb) && Holds(fb, width, height)
    requires forall k :: 0 <= k < |ds| ==> Damage.Accepted(fb.width, fb.height, ds[k])
    ensures var w := Run(fb, t);
            && Ready(w, fb, 0)
            && w.conns[0].client.mapping == Some((width, height))
            && w.conns[0].peer.width == width && w.conns[0].peer.height == height
  {
    hide C.Copies;
    RunNothing(fb);
    hide Run;
    var joined := JoiningAt(fb, [], 0, width, height);
    t := Frames(fb, joined, 0, ds);
    C.DescriptorIsSafe(Run(fb, t).conns[0], fb);
    assert Run(fb, joined).conns[0] == SettledAt(width, height);
  }

  /** Input is muted at the start: the first event finds the client connected, resets it before it is forwarded,
      and has it reported whole. */
  lemma FirstInputResets(fb: Screen, width: nat, height: nat) returns (joined: seq<Step>, t: seq<Step>)
    requires Holds(fb, width, height)
    ensures var w, u := Run(fb, joined), Run(fb, t);
            && w.screens == [0] && 0 in w.conns && w.conns[0] == SettledAt(width, height)
            && 0 in u.conns && u.conns[0].toClient == [Input, Input] && !u.unmute && Presented(w, u, 0)
  {
    RunNothing(fb);
    hide Run, C.Inv, Next, Presented;
    joined := JoiningAt(fb, [], 0, width, height);
    t := Then(fb, joined, InputEvent(true, true));
    InputEffect(Run(fb, joined), true, true);
    assert [] + [Input] + [Input] == [Input, Input];
  }

  /** A connected client that is removed learns of it: it stops at the next message it reads. */
  lemma RemovedIsTold(fb: Screen, es: seq<Step>, id: Id) returns (t: seq<Step>)
    requires Ready(Run(fb, es), fb, id)
    ensures var w := Run(fb, t); id in w.conns && w.conns[id].gone && w.conns[id].client.mode == C.Stopped
  {
    hide Run, C.Inv, Next;
    var w := Run(fb, es);
    var dropped := Then(fb, es, Drop(id));
    DropEffect(w, id);
    DropKeepsClient(w, id);
    var u := Run(fb, dropped);
    var read := Then(fb, dropped, Client(id, Read(1)));
    t := Then(fb, read, Client(id, Dispatch));
    ToldSteps(u, id);
  }

  lemma DropKeepsClient(w: World, id: Id)
    requires Inv(w) && id in w.conns && !w.conns[id].gone
    ensures var t := Next(w, Drop(id));
            && id in t.conns && t.conns[id].client == w.conns[id].client
            && t.conns[id].foreign == w.conns[id].foreign
  {
    hide C.Inv, Wake, C.Fullscreen;
    C.RemoveKeeps(w.conns[id], w.fb);
    TakenOut(w, id, w.conns[id]);
    WithoutFacts(w.screens, id);
  }

  lemma ToldSteps(u: World, id: Id)
    requires Inv(u) && id in u.conns
    requires var c := u.conns[id];
             && !c.foreign && c.gone && c.client.mode == C.Dispatching && c.client.buf == []
             && c.toClient == [Refusal(true)]
    ensures var r := Next(u, Client(id, Read(1)));
            && Inv(r)
            && var t := Next(r, Client(id, Dispatch));
               id in t.conns && t.conns[id].gone && t.conns[id].client.mode == C.Stopped
  {
    ClientKeeps(u, id, Read(1));
    ToldClient(u.conns[id], u.fb);
    hide C.Inv, Sound, Wake, Perform;
  }

  lemma ToldClient(c: C.Conn, fb: Screen)
    requires !c.foreign && c.gone && c.client.mode == C.Dispatching && c.client.buf == [] && c.toClient == [Refusal(true)]
    ensures var d := Perform(Perform(c, fb, Read(1)), fb, Dispatch); d.gone && d.client.mode == C.Stopped
  {
    assert [Refusal(true)][..1] == [Refusal(true)];
  }
}
