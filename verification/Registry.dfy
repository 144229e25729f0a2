/** platform/linux/server.c: the server's registry of clients, on the linked lists and arrays the
    program uses.

    A client is on the pending list, on a screen, or on the list of clients to free; side tables
    hold the pending syncs, the callback records and the poll handlers. */
module Registry {
  import opened Common
  import opened Lists
  import opened ClientRecord
  import opened ScreenList
  import P = PollRegistry
  import H = Handshake
  import D = Damage
  import B = Blit

  /** `struct cl_cb_data`. */
  class CallbackRecord {
    var next: CallbackRecord?
    const cl: Client

    constructor (cl: Client, next: CallbackRecord?)
      ensures this.cl == cl && this.next == next
    {
      this.cl, this.next := cl, next;
    }
  }

  /** No client is listed twice, no two share a socket, and none has been reclaimed. */
  ghost predicate Partitioned(pending: seq<Client>, shown: seq<Client>, freed: seq<Client>, reclaimed: set<Client>) {
    && Distinct(pending) && Distinct(shown) && Distinct(freed)
    && Members(pending) !! Members(shown) !! Members(freed) !! reclaimed
    && SocketsApart(Members(pending) + Members(shown) + Members(freed))
  }

  ghost predicate SocketsApart(cs: set<Client>) {
    forall c, d :: c in cs && d in cs && c.socket == d.socket ==> c == d
  }

  /** `connected` is set exactly for the clients that have left the pending list for a screen. */
  ghost predicate Connected(pending: seq<Client>, shown: seq<Client>)
    reads pending`connected, shown`connected, shown`handshaking
  {
    && (forall i :: 0 <= i < |pending| ==> !pending[i].connected)
    && (forall i :: 0 <= i < |shown| ==> shown[i].connected && !shown[i].handshaking)
  }

  ghost predicate SlotsKept(cs: set<Client>)
    reads cs`dmgCount
  {
    forall c :: c in cs ==> c.SlotsValid()
  }

  ghost function RecordClients(records: seq<CallbackRecord>): (r: seq<Client>)
    ensures |r| == |records|
  {
    seq(|records|, i requires 0 <= i < |records| => records[i].cl)
  }

  lemma RecordsCut(records: seq<CallbackRecord>, i: nat)
    requires i < |records| && Distinct(RecordClients(records))
    ensures Distinct(records) && Distinct(RecordClients(CutOut(records, i)))
  {
    var cs := RecordClients(records);
    assert forall k :: 0 <= k < |records| ==> records[k].cl == cs[k];
    CutOutMembers(cs, i);
    assert RecordClients(CutOut(records, i)) == CutOut(cs, i);
  }

  lemma ConnectedCut(pending: seq<Client>, shown: seq<Client>, i: nat)
    requires Connected(pending, shown) && i < |pending|
    ensures Connected(CutOut(pending, i), shown)
  {
  }

  lemma AddPartition(pending: seq<Client>, shown: seq<Client>, freed: seq<Client>, reclaimed: set<Client>, c: Client)
    requires Partitioned(pending, shown, freed, reclaimed)
    requires c !in pending && c !in shown && c !in freed && c !in reclaimed
    requires NoSocket(pending, c.socket) && NoSocket(shown, c.socket) && NoSocket(freed, c.socket)
    ensures Partitioned([c] + pending, shown, freed, reclaimed)
    ensures Members([c] + pending) == Members(pending) + {c}
  {
    MembersPrepend(pending, c);
    var before := Members(pending) + Members(shown) + Members(freed);
    forall d, e | d in before + {c} && e in before + {c} && d.socket == e.socket
      ensures d == e
    {
    }
  }

  lemma RetireShown(pending: seq<Client>, shown: seq<Client>, freed: seq<Client>, reclaimed: set<Client>, i: nat)
    requires Partitioned(pending, shown, freed, reclaimed) && i < |shown|
    ensures Partitioned(pending, CutOut(shown, i), freed + [shown[i]], reclaimed)
  {
    MembersCut(shown, i);
    MembersAppend(freed, shown[i]);
  }

  lemma RetirePending(pending: seq<Client>, shown: seq<Client>, freed: seq<Client>, reclaimed: set<Client>, i: nat)
    requires Partitioned(pending, shown, freed, reclaimed) && i < |pending|
    ensures Partitioned(CutOut(pending, i), shown, freed + [pending[i]], reclaimed)
  {
    MembersCut(pending, i);
    MembersAppend(freed, pending[i]);
  }

  /** A client taken off the pending list leaves no other with its socket. */
  lemma LeftPending(pending: seq<Client>, shown: seq<Client>, freed: seq<Client>, reclaimed: set<Client>, i: nat)
    requires Partitioned(pending, shown, freed, reclaimed) && i < |pending|
    ensures NoSocket(CutOut(pending, i), pending[i].socket) && NoSocket(shown, pending[i].socket)
    ensures pending[i] !in freed
  {
    Apart(pending, shown, freed, reclaimed);
    var cut := CutOut(pending, i);
    forall k | 0 <= k < |cut|
      ensures cut[k].socket != pending[i].socket
    {
      assert cut[k] in Members(pending);
    }
    forall k | 0 <= k < |shown|
      ensures shown[k].socket != pending[i].socket
    {
      assert shown[k] in Members(shown);
    }
  }

  lemma LeftShown(pending: seq<Client>, shown: seq<Client>, freed: seq<Client>, reclaimed: set<Client>, i: nat)
    requires Partitioned(pending, shown, freed, reclaimed) && i < |shown|
    ensures NoSocket(CutOut(shown, i), shown[i].socket) && NoSocket(pending, shown[i].socket)
    ensures shown[i] !in freed
  {
    Apart(pending, shown, freed, reclaimed);
    var cut := CutOut(shown, i);
    forall k | 0 <= k < |cut|
      ensures cut[k].socket != shown[i].socket
    {
      assert cut[k] in Members(shown);
    }
    forall k | 0 <= k < |pending|
      ensures pending[k].socket != shown[i].socket
    {
      assert pending[k] in Members(pending);
    }
  }

  lemma MovedPending(pending: seq<Client>, shown: seq<Client>, freed: seq<Client>, i: nat)
    requires i < |pending|
    ensures Members(CutOut(pending, i)) + Members(shown) + Members(freed + [pending[i]])
         == Members(pending) + Members(shown) + Members(freed)
  {
    var l, r := Members(CutOut(pending, i)) + Members(shown) + Members(freed + [pending[i]]),
                Members(pending) + Members(shown) + Members(freed);
    forall c | c in Members(pending)
      ensures c in l
    {
      var k :| 0 <= k < |pending| && pending[k] == c;
      assert k != i ==> CutOut(pending, i)[if k < i then k else k - 1] == c;
      assert k == i ==> c in freed + [pending[i]];
    }
    assert r <= l;
  }

  lemma MovedShown(pending: seq<Client>, shown: seq<Client>, freed: seq<Client>, i: nat)
    requires i < |shown|
    ensures Members(pending) + Members(CutOut(shown, i)) + Members(freed + [shown[i]])
         == Members(pending) + Members(shown) + Members(freed)
  {
    MovedPending(shown, pending, freed, i);
  }

  lemma ConnectedCutShown(pending: seq<Client>, shown: seq<Client>, i: nat)
    requires Connected(pending, shown) && i < |shown|
    ensures Connected(pending, CutOut(shown, i))
  {
  }

  lemma ReclaimPartition(pending: seq<Client>, shown: seq<Client>, freed: seq<Client>, reclaimed: set<Client>)
    requires Partitioned(pending, shown, freed, reclaimed)
    ensures Partitioned(pending, shown, [], reclaimed + Members(freed))
  {
  }

  /** A rotation of the screens keeps the partition and the set of shown clients. */
  lemma Rotated(pending: seq<Client>, shown: seq<Client>, freed: seq<Client>, reclaimed: set<Client>)
    requires Partitioned(pending, shown, freed, reclaimed) && shown != []
    ensures Partitioned(pending, shown[1..] + [shown[0]], freed, reclaimed)
    ensures Members(shown[1..] + [shown[0]]) == Members(shown)
  {
    var turned := shown[1..] + [shown[0]];
    assert shown == [shown[0]] + shown[1..];
    assert forall c :: c in turned <==> c in shown;
  }

  lemma ConnectedTurned(pending: seq<Client>, shown: seq<Client>)
    requires Connected(pending, shown) && shown != []
    ensures Connected(pending, shown[1..] + [shown[0]])
  {
  }

  /** A live client is the only one with its socket, and on one list only. */
  lemma OnlyHolder(pending: seq<Client>, shown: seq<Client>, freed: seq<Client>, reclaimed: set<Client>, cl: Client)
    requires Partitioned(pending, shown, freed, reclaimed) && cl in Members(pending) + Members(shown)
    ensures Distinct(pending) && Distinct(shown)
    ensures NoSocket(shown, cl.socket) <==> cl in pending
    ensures NoSocket(pending, cl.socket) <==> cl in shown
    ensures forall i :: 0 <= i < |pending| && pending[i].socket == cl.socket ==> pending[i] == cl
    ensures forall i :: 0 <= i < |shown| && shown[i].socket == cl.socket ==> shown[i] == cl
    ensures cl in pending ==> cl !in shown
  {
    Apart(pending, shown, freed, reclaimed);
    forall i | 0 <= i < |pending| && pending[i].socket == cl.socket
      ensures pending[i] == cl
    {
      assert pending[i] in Members(pending);
    }
    forall i | 0 <= i < |shown| && shown[i].socket == cl.socket
      ensures shown[i] == cl
    {
      assert shown[i] in Members(shown);
    }
    if cl in shown {
      var i :| 0 <= i < |shown| && shown[i] == cl;
      assert !NoSocket(shown, cl.socket);
    }
    if cl in pending {
      var i :| 0 <= i < |pending| && pending[i] == cl;
      assert !NoSocket(pending, cl.socket);
    }
  }

  lemma LiveWithout(pending: seq<Client>, shown: seq<Client>, pending': seq<Client>, shown': seq<Client>, cl: Client, i: nat)
    requires Distinct(pending) && Distinct(shown)
    requires || (cl in shown && cl !in pending && pending' == pending
                 && i < |shown| && shown[i] == cl && shown' == CutOut(shown, i))
             || (cl in pending && cl !in shown && shown' == shown
                 && i < |pending| && pending[i] == cl && pending' == CutOut(pending, i))
    ensures Members(pending') + Members(shown') == Members(pending) + Members(shown) - {cl}
  {
    if cl in shown {
      MembersCut(shown, i);
    } else {
      MembersCut(pending, i);
    }
  }

  lemma RecordedWithout(records: seq<CallbackRecord>, j: nat)
    requires j < |records| && Distinct(RecordClients(records))
    ensures Members(RecordClients(CutOut(records, j))) == Members(RecordClients(records)) - {records[j].cl}
  {
    var cs := RecordClients(records);
    MembersCut(cs, j);
    assert RecordClients(CutOut(records, j)) == CutOut(cs, j);
  }

  lemma MovePartition(pending: seq<Client>, shown: seq<Client>, freed: seq<Client>, reclaimed: set<Client>, i: nat)
    requires Partitioned(pending, shown, freed, reclaimed) && i < |pending|
    ensures Partitioned(CutOut(pending, i), shown + [pending[i]], freed, reclaimed)
    ensures Members(CutOut(pending, i)) + Members(shown + [pending[i]]) == Members(pending) + Members(shown)
  {
    MembersCut(pending, i);
    MembersAppend(shown, pending[i]);
  }

  lemma Apart(pending: seq<Client>, shown: seq<Client>, freed: seq<Client>, reclaimed: set<Client>)
    requires Partitioned(pending, shown, freed, reclaimed)
    ensures SocketsApart(Members(pending) + Members(shown) + Members(freed))
    ensures Distinct(pending) && Distinct(shown) && Distinct(freed)
    ensures forall c :: c in pending ==> c !in shown && c !in freed && c !in reclaimed
    ensures forall c :: c in shown ==> c !in freed && c !in reclaimed
    ensures forall c :: c in freed ==> c !in reclaimed
    ensures forall k :: 0 <= k < |pending| ==> pending[k] in Members(pending) && pending[k] !in freed
    ensures forall k :: 0 <= k < |shown| ==> shown[k] in Members(shown) && shown[k] !in freed
  {
    assert forall c :: c in pending ==> c in Members(pending);
    assert forall c :: c in shown ==> c in Members(shown);
    assert forall c :: c in freed ==> c in Members(freed);
  }

  lemma SameSocket(cs: set<Client>, c: Client, d: Client)
    requires SocketsApart(cs) && c in cs && d in cs && c.socket == d.socket
    ensures c == d
  {
  }

  /** The handshake and damage state of a client record. */
  ghost function Record(cl: Client): (p: H.Peer)
    requires cl.SlotsValid()
    reads cl, cl.dmg
    ensures |p.slots| <= DMG_SLOTS
  {
    H.Peer(cl.handshaking, cl.connected, cl.recvFdWait, cl.width, cl.height, cl.bpp, cl.shmFd,
           cl.pixels != null, cl.syncFlags, cl.Slots())
  }

  ghost function Flags(cs: seq<Client>): (f: seq<SyncFlags>)
    reads cs`syncFlags
    ensures |f| == |cs| && forall i :: 0 <= i < |cs| ==> f[i] == cs[i].syncFlags
  {
    if cs == [] then [] else Flags(cs[..|cs| - 1]) + [cs[|cs| - 1].syncFlags]
  }

  lemma RequestsNext(flags: seq<SyncFlags>, i: nat)
    ensures i < |flags| ==> Requests(flags[..i + 1]) == Requests(flags[..i]) + if flags[i].vblank then 1 else 0
  {
    if i < |flags| {
      assert flags[..i + 1][..i] == flags[..i];
    }
  }

  lemma NoRequestsYet(flags: seq<SyncFlags>)
    ensures Requests(flags[..0]) == 0
  {
    assert flags[..0] == [];
  }

  lemma OnceConnected(p: H.Peer, fb: H.Screen, width: nat, height: nat, bpp: nat, env: H.Env)
    requires p.handshaking || p.connected
    ensures H.HandleRegister(p, fb, width, height, bpp, env).peer == p
  {
  }

  /** The region `server_sync_fullscreen` reports. */
  function Entire(width: nat, height: nat): B.Region {
    B.Region(0, 0, ToU16(width - 1), ToU16(height - 1))
  }

  /** It is the whole sprite, for every size a sprite can have. */
  lemma EntireIsWhole(width: nat, height: nat, row: nat, col: nat)
    requires 0 < width < U16_RANGE && 0 < height < U16_RANGE
    ensures Entire(width, height) == B.WholeOf(width, height)
    ensures D.Covers(Entire(width, height), row, col) <==> row < height && col < width
  {
  }

  /** The answers to `server_addclient`: the allocation of the client, the sending of the server information,
      the allocation of the callback record, and the calls behind the poll handler. */
  datatype Kernel = Kernel(memoryOk: bool, sendOk: bool, recordOk: bool, pollOk: bool)

  ghost function SocketsOf(cs: seq<Client>): (s: seq<int>)
    ensures |s| == |cs|
  {
    seq(|cs|, i requires 0 <= i < |cs| => cs[i].socket)
  }

  /** The clients of a server by their sockets: not yet connected, on the screens, and waiting to be freed. */
  datatype Sockets = Sockets(pending: seq<int>, shown: seq<int>, freed: seq<int>)

  /** What becomes of the client an event is about. */
  datatype Verdict = Nothing | Admitted | Promoted | Removed

  /** A pending client gets the last screen; a client waits to be freed. */
  function Connecting(s: Sockets, fd: int): Sockets {
    s.(pending := Without(s.pending, fd), shown := s.shown + [fd])
  }

  function Leaving(s: Sockets, fd: int): Sockets {
    Sockets(Without(s.pending, fd), Without(s.shown, fd), s.freed + [fd])
  }

  /** The lists after an event. */
  function After(s: Sockets, e: Event, v: Verdict): Sockets {
    match e
    case Connection(fd, _) => if v.Admitted? then s.(pending := [fd] + s.pending) else s
    case Readable(fd, _, _, _) =>
      if v.Promoted? then Connecting(s, fd) else if v.Removed? then Leaving(s, fd) else s
    case Switching => s.(shown := Turn(s.shown))
    case Resyncing => s
    case RoundOver(_) => s.(freed := [])
  }

  function AfterAll(s: Sockets, es: seq<Event>, vs: seq<Verdict>): Sockets
    requires |es| == |vs|
  {
    if es == [] then s
    else After(AfterAll(s, es[..|es| - 1], vs[..|es| - 1]), es[|es| - 1], vs[|es| - 1])
  }

  /** A client's message is accepted; `room` says that the table of pending syncs has an entry for it. */
  predicate Welcome(p: H.Peer, fb: H.Screen, m: Option<H.Inbound>, env: H.Env, memoryOk: bool, room: bool)
    requires |p.slots| <= DMG_SLOTS
  {
    m.Some? &&
    var r := H.Handle(p, fb, m.value, env);
    r.ok && (r.enlist ==> room) && (m.value == H.Ack(H.ESTABLISHED) ==> memoryOk)
  }

  lemma TurnSockets(cs: seq<Client>)
    ensures SocketsOf(Turn(cs)) == Turn(SocketsOf(cs))
  {
  }

  lemma NeverEnlists(p: H.Peer, fb: H.Screen, m: H.Inbound, env: H.Env)
    requires |p.slots| <= DMG_SLOTS && !m.Sync?
    ensures !H.Handle(p, fb, m, env).enlist
  {
  }

  lemma CutSockets(cs: seq<Client>, i: nat)
    requires i < |cs| && Distinct(SocketsOf(cs))
    ensures SocketsOf(CutOut(cs, i)) == Without(SocketsOf(cs), cs[i].socket)
  {
    WithoutAt(SocketsOf(cs), i);
    assert SocketsOf(CutOut(cs, i)) == CutOut(SocketsOf(cs), i);
  }

  lemma NoSuchSocket(cs: seq<Client>, fd: int)
    requires NoSocket(cs, fd)
    ensures Without(SocketsOf(cs), fd) == SocketsOf(cs)
  {
    WithoutAbsent(SocketsOf(cs), fd);
  }

  lemma DistinctSockets(cs: seq<Client>, all: set<Client>)
    requires Distinct(cs) && Members(cs) <= all && SocketsApart(all)
    ensures Distinct(SocketsOf(cs))
  {
    forall i, j | 0 <= i < j < |cs|
      ensures cs[i].socket != cs[j].socket
    {
      assert cs[i] in Members(cs) && cs[j] in Members(cs);
    }
  }

  /** What the server loop can be woken by, and the end of a round. */
  datatype Event =
    | Connection(fd: int, k: Kernel)
    | Readable(fd: int, m: Option<H.Inbound>, env: H.Env, memoryOk: bool)
    | Switching
    | Resyncing
    | RoundOver(active: bool)

  /** `struct server_context`.  The ghost sequences are the contents of the lists and tables in
      order; `shown[i]` is the client of screen `i`, and `reclaimed` the clients freed for good. */
  class Server {
    var mainScreen: ScreenNode?
    var pendingClients: Client?
    var cbData: CallbackRecord?
    const syncClients: array<Client?>
    const freeList: array<Client?>
    var freeCount: nat
    var vblanks: nat
    const fdpoll: P.Handler
    const fb: H.Screen

    ghost var pending: seq<Client>
    ghost var screens: seq<ScreenNode>
    ghost var shown: seq<Client>
    ghost var freed: seq<Client>
    ghost var sync: seq<Client>
    ghost var records: seq<CallbackRecord>
    ghost var reclaimed: set<Client>

    // -------------------------------------------------------------------------------------
    // The invariant, table by table

    ghost function PendingAt(i: nat): Client?
      reads this`pending
    {
      if i < |pending| then pending[i] else null
    }

    ghost function View(): Sockets
      reads this`pending, this`shown, this`freed
    {
      Sockets(SocketsOf(pending), SocketsOf(shown), SocketsOf(freed))
    }

    ghost predicate PendingLinked()
      reads this`pendingClients, this`pending, pending`next
    {
      && pendingClients == PendingAt(0)
      && forall i :: 0 <= i < |pending| ==> pending[i].next == PendingAt(i + 1)
    }

    ghost function ScreenAt(i: nat): ScreenNode?
      reads this`screens
    {
      if i < |screens| then screens[i] else null
    }

    ghost predicate ScreensLinked()
      reads this`mainScreen, this`screens, screens`next
    {
      && mainScreen == ScreenAt(0)
      && (forall i :: 0 <= i < |screens| ==> screens[i].next == ScreenAt(i + 1))
      && Distinct(screens)
    }

    /** Every screen shows exactly one client. */
    ghost predicate ScreensHold()
      reads this`screens, this`shown, screens`members, screens`clients, shown`next
    {
      && |shown| == |screens|
      && forall i :: 0 <= i < |screens| ==>
           screens[i].members == [shown[i]] && screens[i].clients == shown[i] && shown[i].next == null
    }

    ghost predicate SyncSlots()
      reads this`sync, syncClients
    {
      && syncClients.Length == MAX_CLIENTS && |sync| <= MAX_CLIENTS
      && forall i :: 0 <= i < MAX_CLIENTS ==> syncClients[i] == if i < |sync| then sync[i] else null
    }

    ghost predicate FreeSlots()
      reads this`freeCount, this`freed, freeList
    {
      && freeList.Length == P.MAX_HANDLERS && freeList != syncClients && freeCount == |freed| <= P.MAX_HANDLERS
      && forall i :: 0 <= i < |freed| ==> freeList[i] == freed[i]
    }

    /** The clients with a connection, and all the clients the server holds memory for. */
    ghost function Live(): set<Client>
      reads this`pending, this`shown
    {
      Members(pending) + Members(shown)
    }

    ghost function Owned(): set<Client>
      reads this`pending, this`shown, this`freed
    {
      Live() + Members(freed)
    }

    ghost predicate Partition()
      reads this`pending, this`shown, this`freed, this`reclaimed
    {
      Partitioned(pending, shown, freed, reclaimed)
    }

    /** The pending syncs are distinct clients the server still holds, and `syncing` marks them. */
    ghost predicate SyncMembers(owned: set<Client>)
      reads this`sync, owned`syncing
    {
      Distinct(sync) && Members(sync) <= owned && forall c :: c in owned ==> (c.syncing <==> c in sync)
    }

    /** Live clients have a poll handler; those awaiting their release have none. */
    ghost predicate Watched(pending: seq<Client>, shown: seq<Client>, freed: seq<Client>)
      reads fdpoll, fdpoll.nodes
    {
      && fdpoll.Valid() && fdpoll.count == |fdpoll.nodes|
      && (forall k :: 0 <= k < |pending| ==> pending[k].socket in P.Fds(fdpoll.nodes))
      && (forall k :: 0 <= k < |shown| ==> shown[k].socket in P.Fds(fdpoll.nodes))
      && (forall k :: 0 <= k < |freed| ==> freed[k].socket !in P.Fds(fdpoll.nodes))
    }

    ghost predicate Handlers()
      reads this`pending, this`shown, this`freed, fdpoll, fdpoll.nodes
    {
      Watched(pending, shown, freed)
    }

    /** The three lists are linked. */
    ghost predicate Chains()
      reads this`pendingClients, this`pending, pending`next
      reads this`mainScreen, this`screens, screens`next, this`shown, screens`members, screens`clients, shown`next
    {
      PendingLinked() && ScreensLinked() && ScreensHold()
    }

    /** The lists, and where each client is. */
    ghost predicate Lists()
      reads this`pendingClients, this`pending, pending`next
      reads this`mainScreen, this`screens, screens`next, this`shown, screens`members, screens`clients, shown`next
      reads this`freed, this`reclaimed, pending`connected, shown`connected, shown`handshaking
    {
      Chains() && Partition() && Connected(pending, shown)
    }

    /** The side tables. */
    ghost predicate Tables()
      reads this`sync, syncClients, this`freeCount, this`freed, freeList
      reads this`pending, this`shown, Owned()`syncing, Owned()`dmgCount, fdpoll, fdpoll.nodes
    {
      && SyncSlots() && FreeSlots()
      && SyncMembers(Owned()) && Handlers() && SlotsKept(Owned())
    }

    ghost predicate Valid()
      reads this, pending, screens, shown, freed, syncClients, freeList, fdpoll, fdpoll.nodes
    {
      Lists() && Tables()
    }

    /** `spr16_server_init`, without the listening socket and the input drivers. */
    constructor (fdpoll: P.Handler, fb: H.Screen)
      requires fdpoll.Valid() && fdpoll.count == |fdpoll.nodes|
      ensures Valid() && this.fdpoll == fdpoll && this.fb == fb
      ensures pending == [] && shown == [] && freed == [] && sync == [] && records == [] && reclaimed == {} && vblanks == 0
      ensures cbData == null && fresh(syncClients) && fresh(freeList)
    {
      mainScreen, pendingClients, cbData := null, null, null;
      syncClients := new Client?[MAX_CLIENTS](_ => null);
      freeList := new Client?[P.MAX_HANDLERS](_ => null);
      freeCount, vblanks := 0, 0;
      this.fdpoll, this.fb := fdpoll, fb;
      pending, screens, shown, freed, sync, records, reclaimed := [], [], [], [], [], [], {};
      new;
      NothingListed();
      hide Lists, SyncSlots, FreeSlots, SyncMembers, SlotsKept, Watched;
    }

    /** Empty lists and cleared tables are consistent. */
    lemma NothingListed()
      requires pending == [] && screens == [] && shown == [] && freed == [] && sync == [] && reclaimed == {}
      requires pendingClients == null && mainScreen == null && freeCount == 0
      requires syncClients.Length == MAX_CLIENTS && (forall i :: 0 <= i < MAX_CLIENTS ==> syncClients[i] == null)
      requires freeList.Length == P.MAX_HANDLERS && freeList != syncClients
      requires fdpoll.Valid() && fdpoll.count == |fdpoll.nodes|
      ensures Lists() && SyncSlots() && FreeSlots() && SyncMembers(Owned()) && SlotsKept(Owned()) && Handlers()
    {
    }

    // -------------------------------------------------------------------------------------
    // The pending list

    /** The search of `server_remove_pending`, keeping the trailing pointer. */
    method SeekPending(fd: int) returns (trail: Client?, cl: Client?, ghost i: nat)
      requires PendingLinked()
      ensures cl == null <==> NoSocket(pending, fd)
      ensures cl != null ==>
                && i < |pending| && cl == pending[i] && cl.socket == fd
                && trail == if i > 0 then pending[i - 1] else null
    {
      trail, cl, i := null, pendingClients, 0;
      while cl != null
        invariant i <= |pending| && cl == PendingAt(i)
        invariant trail == if i > 0 then pending[i - 1] else null
        invariant NoSocket(pending[..i], fd)
        decreases |pending| - i
      {
        if cl.socket == fd {
          return;
        }
        trail := cl;
        cl := cl.next;
        i := i + 1;
      }
      assert pending[..i] == pending;
    }

    method RemovePending(fd: int) returns (cl: Client?, ghost i: nat)
      requires PendingLinked() && Distinct(pending)
      modifies this`pendingClients, this`pending, pending`next
      ensures PendingLinked()
      ensures cl == null <==> NoSocket(old(pending), fd)
      ensures cl == null ==> pending == old(pending)
      ensures cl != null ==>
                && i < |old(pending)| && old(pending)[i] == cl && cl.socket == fd && cl.next == null
                && pending == CutOut(old(pending), i)
    {
      var trail;
      trail, cl, i := SeekPending(fd);
      if cl != null {
        UnlinkPending(trail, cl, i);
      }
    }

    method UnlinkPending(trail: Client?, cl: Client, ghost i: nat)
      requires PendingLinked() && Distinct(pending) && i < |pending| && cl == pending[i]
      requires trail == if i > 0 then pending[i - 1] else null
      modifies this`pendingClients, this`pending, pending`next
      ensures PendingLinked() && pending == CutOut(old(pending), i) && cl.next == null
    {
      if trail == null {
        pendingClients := cl.next;
      } else {
        trail.next := cl.next;
      }
      pending := CutOut(pending, i);
      cl.next := null;
    }

    // -------------------------------------------------------------------------------------
    // The screen list

    /** The client with a given socket, on the screens. */
    method FindShown(fd: int) returns (cl: Client?)
      requires ScreensLinked() && ScreensHold()
      ensures cl == null <==> NoSocket(shown, fd)
      ensures cl != null ==> cl in shown && cl.socket == fd
    {
      assert |shown| == |screens|;
      hide ScreensHold;
      cl := null;
      var scrn := mainScreen;
      ghost var i := 0;
      while scrn != null
        invariant i <= |screens| && scrn == ScreenAt(i) && cl == null
        invariant forall k :: 0 <= k < i ==> shown[k].socket != fd
        decreases |screens| - i
      {
        ScreenHolds(i);
        cl := scrn.FindClient(fd);
        if cl != null {
          return;
        }
        scrn := scrn.next;
        i := i + 1;
      }
    }

    lemma ScreenHolds(i: nat)
      requires ScreensHold() && i < |screens|
      ensures |shown| == |screens| && screens[i].members == [shown[i]] && screens[i].Linked()
    {
    }

    method FindPending(fd: int) returns (cl: Client?)
      requires PendingLinked()
      ensures cl == null <==> NoSocket(pending, fd)
      ensures cl != null ==> cl in pending && cl.socket == fd
    {
      cl := pendingClients;
      ghost var j := 0;
      while cl != null
        invariant j <= |pending| && cl == PendingAt(j)
        invariant NoSocket(pending[..j], fd)
        decreases |pending| - j
      {
        if cl.socket == fd {
          return;
        }
        cl := cl.next;
        j := j + 1;
      }
      assert pending[..j] == pending;
    }

    /** `server_getclient`: the screens, then the pending list. */
    method GetClient(fd: int) returns (cl: Client?)
      requires PendingLinked() && ScreensLinked() && ScreensHold()
      ensures cl == null <==> NoSocket(pending, fd) && NoSocket(shown, fd)
      ensures cl != null ==> (cl in pending || cl in shown) && cl.socket == fd
    {
      cl := FindShown(fd);
      if cl == null {
        cl := FindPending(fd);
      }
    }

    /** The walk to the end of the screen list. */
    method LastScreen(from: ScreenNode) returns (tmp: ScreenNode)
      requires screens != [] && from == screens[0]
      requires forall i :: 0 <= i < |screens| ==> screens[i].next == ScreenAt(i + 1)
      ensures tmp == screens[|screens| - 1]
    {
      tmp := from;
      ghost var i := 0;
      while tmp.next != null
        invariant i < |screens| && tmp == screens[i]
        decreases |screens| - i
      {
        tmp := tmp.next;
        i := i + 1;
      }
    }

    /** The list surgery of `main_screen_switch(-1)`: a left rotation of the screen list. */
    method RotateScreens()
      requires ScreensLinked() && |screens| >= 2
      modifies this`mainScreen, this`screens, screens`next
      ensures ScreensLinked()
      ensures screens == old(screens)[1..] + [old(screens)[0]]
    {
      var oldmain := mainScreen;
      mainScreen := oldmain.next;
      var tmp := LastScreen(oldmain);
      tmp.next := oldmain;
      oldmain.next := null;
      screens := screens[1..] + [screens[0]];
    }

    // -------------------------------------------------------------------------------------
    // Connecting

    /** `server_remove_pending` inside a consistent server. */
    method DetachPending(fd: int) returns (cl: Client?, ghost i: nat)
      requires Chains() && Partition()
      modifies this`pendingClients, this`pending, pending`next
      ensures Chains()
      ensures cl == null <==> NoSocket(old(pending), fd)
      ensures cl == null ==> pending == old(pending)
      ensures cl != null ==>
                && i < |old(pending)| && old(pending)[i] == cl && cl.socket == fd && cl.next == null
                && pending == CutOut(old(pending), i)
    {
      Apart(pending, shown, freed, reclaimed);
      hide Partitioned, SocketsApart, NoSocket, PendingLinked, ScreensLinked;
      assert forall k :: 0 <= k < |shown| ==> shown[k] !in pending;
      cl, i := RemovePending(fd);
      assert ScreensHold();
    }

    /** `server_connect_client`; `memoryOk` is the answer of the allocation. */
    method ConnectClient(cl: Client, memoryOk: bool) returns (ok: bool, ghost i: nat)
      requires Lists() && cl in Owned()
      modifies this`pendingClients, this`pending, this`mainScreen, this`screens, this`shown
      modifies pending`next, screens`next, cl`connected, cl`handshaking
      ensures Lists() && Live() == old(Live())
      ensures ok <==> memoryOk && cl in old(pending)
      ensures ok ==>
                && cl.connected && !cl.handshaking
                && i < |old(pending)| && old(pending)[i] == cl
                && pending == CutOut(old(pending), i) && shown == old(shown) + [cl]
      ensures !ok ==>
                && pending == old(pending) && shown == old(shown)
                && cl.connected == old(cl.connected) && cl.handshaking == old(cl.handshaking)
    {
      hide Chains, Connected, SocketsApart;
      i := 0;
      if !memoryOk {
        return false, i;
      }
      Apart(pending, shown, freed, reclaimed);
      hide Partitioned;
      var scrn := new ScreenNode();
      var found;
      found, i := DetachPending(cl.socket);
      if found == null {
        assert cl !in old(pending);
        return false, i;
      }
      SameSocket(old(Owned()), found, cl);
      Place(scrn, cl, old(pending), i);
      ok := true;
    }

    /** The client just taken off the pending list goes on a screen of its own. */
    method Place(scrn: ScreenNode, cl: Client, ghost was: seq<Client>, ghost i: nat)
      requires Chains() && Partitioned(was, shown, freed, reclaimed) && Connected(was, shown)
      requires i < |was| && cl == was[i] && pending == CutOut(was, i)
      requires scrn !in screens && scrn.next == null && scrn.members == [] && scrn.Linked()
      modifies this`mainScreen, this`screens, this`shown, screens`next
      modifies cl`next, cl`connected, cl`handshaking, scrn`clients, scrn`members
      ensures Lists() && Live() == Members(was) + Members(old(shown))
      ensures shown == old(shown) + [cl] && cl.connected && !cl.handshaking
    {
      hide Chains, Connected, Partitioned, Members;
      ghost var before := shown;
      LeftPending(was, shown, freed, reclaimed, i);
      MovePartition(was, shown, freed, reclaimed, i);
      ConnectedCut(was, shown, i);
      assert cl !in pending && cl !in before;
      FillScreen(scrn, cl);
      HangScreen(scrn, cl);
      MarkConnected(cl, before);
    }

    method MarkConnected(cl: Client, ghost before: seq<Client>)
      requires cl !in before && cl !in pending && Connected(pending, before)
      modifies cl`connected, cl`handshaking
      ensures Connected(pending, before + [cl]) && cl.connected && !cl.handshaking
    {
      cl.connected := true;
      cl.handshaking := false;
    }

    /** `screen_add_client` on a screen that is not listed yet. */
    method FillScreen(scrn: ScreenNode, cl: Client)
      requires Chains() && scrn !in screens && scrn.members == [] && scrn.Linked()
      requires cl !in shown && cl !in pending
      modifies cl`next, scrn`clients, scrn`members
      ensures Chains()
      ensures scrn.members == [cl] && scrn.clients == cl && cl.next == null
    {
      var added := scrn.AddClient(cl);
    }

    /** The new screen, holding the client, goes to the end of the list. */
    method HangScreen(scrn: ScreenNode, cl: Client)
      requires Chains() && scrn !in screens && scrn.next == null
      requires scrn.members == [cl] && scrn.clients == cl && cl.next == null
      modifies this`mainScreen, this`screens, this`shown, screens`next
      ensures Chains() && shown == old(shown) + [cl]
    {
      hide PendingLinked, ScreensLinked;
      AppendScreen(scrn);
      shown := shown + [cl];
      assert ScreensHold();
    }

    method AppendScreen(scrn: ScreenNode)
      requires ScreensLinked() && scrn !in screens && scrn.next == null
      modifies this`mainScreen, this`screens, screens`next
      ensures ScreensLinked() && screens == old(screens) + [scrn]
    {
      if mainScreen != null {
        var tmp := LastScreen(mainScreen);
        tmp.next := scrn;
      } else {
        mainScreen := scrn;
      }
      screens := screens + [scrn];
    }

    // -------------------------------------------------------------------------------------
    // Callback records

    ghost function RecordAt(i: nat): CallbackRecord?
      reads this`records
    {
      if i < |records| then records[i] else null
    }

    ghost predicate RecordsLinked()
      reads this`cbData, this`records, records`next
    {
      && cbData == RecordAt(0)
      && (forall i :: 0 <= i < |records| ==> records[i].next == RecordAt(i + 1))
      && Distinct(RecordClients(records))
    }

    /** `cb_data_add`. */
    method AddRecord(cl: Client) returns (r: CallbackRecord)
      requires RecordsLinked() && cl !in RecordClients(records)
      modifies this`cbData, this`records
      ensures RecordsLinked() && fresh(r) && r.cl == cl && records == [r] + old(records)
    {
      r := new CallbackRecord(cl, cbData);
      cbData := r;
      records := [r] + records;
      assert RecordClients(records) == [cl] + RecordClients(old(records));
    }

    method SeekRecord(cl: Client) returns (trail: CallbackRecord?, r: CallbackRecord?, ghost i: nat)
      requires RecordsLinked()
      ensures r == null <==> cl !in RecordClients(records)
      ensures r != null ==> i < |records| && r == records[i] && r.cl == cl
                            && trail == if i > 0 then records[i - 1] else null
    {
      trail, r, i := null, cbData, 0;
      while r != null
        invariant i <= |records| && r == RecordAt(i)
        invariant trail == if i > 0 then records[i - 1] else null
        invariant forall k :: 0 <= k < i ==> RecordClients(records)[k] != cl
        decreases |records| - i
      {
        if r.cl == cl {
          assert RecordClients(records)[i] == cl;
          return;
        }
        trail := r;
        r := r.next;
        i := i + 1;
      }
    }

    /** `cb_data_remove`. */
    method RemoveRecord(cl: Client) returns (ok: bool, ghost i: nat)
      requires RecordsLinked()
      modifies this`cbData, this`records, records`next
      ensures RecordsLinked()
      ensures ok <==> cl in old(RecordClients(records))
      ensures if ok then
                i < |old(records)| && old(records)[i].cl == cl && records == CutOut(old(records), i)
              else records == old(records)
    {
      var trail, r;
      trail, r, i := SeekRecord(cl);
      ok := r != null;
      if ok {
        RecordsCut(records, i);
        UnlinkRecord(trail, r, i);
      }
    }

    method UnlinkRecord(trail: CallbackRecord?, r: CallbackRecord, ghost i: nat)
      requires RecordsLinked() && Distinct(records) && i < |records| && r == records[i]
      requires Distinct(RecordClients(CutOut(records, i)))
      requires trail == if i > 0 then records[i - 1] else null
      modifies this`cbData, this`records, records`next
      ensures RecordsLinked() && records == CutOut(old(records), i)
    {
      if trail == null {
        cbData := r.next;
      } else {
        trail.next := r.next;
      }
      records := CutOut(records, i);
    }

    // -------------------------------------------------------------------------------------
    // Accepting and freeing

    /** The new client is put on the pending list. */
    ghost predicate Begins(fd: int, k: Kernel)
      reads this`pending, this`shown
    {
      k.memoryOk && k.sendOk && NoSocket(pending, fd) && NoSocket(shown, fd)
    }

    /** It gets a callback record and a poll handler as well. */
    ghost predicate Completes(fd: int, k: Kernel)
      reads fdpoll, fdpoll.nodes
    {
      k.recordOk && k.pollOk && P.CanAdd(fdpoll.View(), fdpoll.max, fd)
    }

    /** `server_addclient`.  The kernel hands out a descriptor that is not open.  When the client got on
        the pending list and the rest fails, its memory is given back while the list still holds
        it; otherwise the lists and tables stay consistent. */
    method AddClient(fd: int, k: Kernel) returns (ok: bool, ghost cl: Client?)
      requires Lists() && RecordsLinked() && Handlers()
      requires Members(RecordClients(records)) <= Owned() && NoSocket(freed, fd)
      modifies this`pendingClients, this`pending, this`cbData, this`records, records`next, this`reclaimed, fdpoll
      ensures RecordsLinked() && (Lists() <==> ok || !old(Begins(fd, k)))
      ensures ok <==> old(Begins(fd, k) && Completes(fd, k))
      ensures ok || !old(Begins(fd, k)) ==> Handlers() && reclaimed == old(reclaimed)
      ensures old(Begins(fd, k)) ==>
                && cl != null && fresh(cl) && cl.socket == fd && !cl.syncing && cl.SlotsValid()
                && pending == [cl] + old(pending)
      ensures !old(Begins(fd, k)) ==> pending == old(pending) && records == old(records)
      ensures RecordClients(records) == (if ok then [cl] else []) + old(RecordClients(records))
      ensures old(Begins(fd, k)) && !ok ==> reclaimed == old(reclaimed) + {cl}
    {
      hide Chains, Partitioned, Connected, RecordsLinked, Watched, P.Fds, Completes;
      cl, ok := null, false;
      var found := FindClient(fd);
      if found == null && k.memoryOk && k.sendOk {
        var c := new Client(fd);
        assert c !in RecordClients(records);
        ok := Enroll(c, k);
        cl := c;
      }
    }

    /** What follows the greeting. */
    method Enroll(c: Client, k: Kernel) returns (ok: bool)
      requires Lists() && RecordsLinked() && Handlers()
      requires c !in Owned() && c !in reclaimed && c !in RecordClients(records) && !c.connected
      requires NoSocket(pending, c.socket) && NoSocket(shown, c.socket) && NoSocket(freed, c.socket)
      modifies this`pendingClients, this`pending, this`cbData, this`records, records`next, this`reclaimed, fdpoll, c`next
      ensures RecordsLinked() && pending == [c] + old(pending)
      ensures ok <==> old(Completes(c.socket, k))
      ensures RecordClients(records) == (if ok then [c] else []) + old(RecordClients(records))
      ensures if ok then Lists() && Handlers() && reclaimed == old(reclaimed)
              else reclaimed == old(reclaimed) + {c} && !Lists()
    {
      hide Chains, Connected, RecordsLinked, Watched, Completes;
      AddPartition(pending, shown, freed, reclaimed, c);
      PushedConnected(c);
      hide Partitioned;
      LinkPending(c);
      ok := RecordAndWatch(c, k);
      if !ok {
        reclaimed := reclaimed + {c};
        HeldAndReclaimed(c);
      }
    }

    lemma HeldAndReclaimed(c: Client)
      requires c in pending && c in reclaimed
      ensures !Lists()
    {
      hide Chains, Connected;
      assert c in Members(pending);
    }

    /** The callback record and the poll handler; the record is taken back when there is no handler. */
    method RecordAndWatch(c: Client, k: Kernel) returns (ok: bool)
      requires RecordsLinked() && c !in RecordClients(records)
      requires pending != [] && pending[0] == c && Watched(pending[1..], shown, freed) && NoSocket(freed, c.socket)
      modifies this`cbData, this`records, records`next, fdpoll
      ensures RecordsLinked() && (ok <==> old(Completes(c.socket, k)))
      ensures RecordClients(records) == (if ok then [c] else []) + old(RecordClients(records))
      ensures ok ==> Handlers()
    {
      hide RecordsLinked, Watched, Completes;
      ok := false;
      if k.recordOk {
        ghost var was := records;
        var r := AddRecord(c);
        RecordedFirst(r, was);
        ok := Watch(c, k);
        if !ok {
          var found;
          ghost var i;
          found, i := RemoveRecord(c);
          RecordedAgain(r, was, i);
        }
      }
      NoSuch(c.socket, k);
    }

    lemma NoSuch(fd: int, k: Kernel)
      ensures Completes(fd, k) ==> k.recordOk
    {
    }

    lemma RecordedFirst(r: CallbackRecord, was: seq<CallbackRecord>)
      ensures RecordClients([r] + was) == [r.cl] + RecordClients(was) && r.cl in RecordClients([r] + was)
    {
      assert RecordClients([r] + was)[0] == r.cl;
    }

    lemma RecordedAgain(r: CallbackRecord, was: seq<CallbackRecord>, i: nat)
      requires r.cl !in RecordClients(was) && i < |[r] + was| && ([r] + was)[i].cl == r.cl
      ensures CutOut([r] + was, i) == was
    {
      assert forall k :: 0 <= k < |was| ==> was[k].cl == RecordClients(was)[k];
    }

    method FindClient(fd: int) returns (cl: Client?)
      requires Chains()
      ensures cl == null <==> NoSocket(pending, fd) && NoSocket(shown, fd)
    {
      cl := GetClient(fd);
    }

    /** The new client's poll handler. */
    method Watch(c: Client, k: Kernel) returns (ok: bool)
      requires pending != [] && pending[0] == c && Watched(pending[1..], shown, freed) && NoSocket(freed, c.socket)
      requires k.recordOk
      modifies fdpoll
      ensures ok <==> old(Completes(c.socket, k))
      ensures ok ==> Handlers()
    {
      ghost var fds := P.Fds(fdpoll.nodes);
      ok := fdpoll.Add(c.socket, k.pollOk);
      if ok {
        assert P.Fds(fdpoll.nodes) == [c.socket] + fds;
      }
    }

    method LinkPending(c: Client)
      requires Chains() && c !in pending && c !in shown
      modifies this`pendingClients, this`pending, c`next
      ensures Chains() && pending == [c] + old(pending)
    {
      c.next := pendingClients;
      pendingClients := c;
      pending := [c] + pending;
    }

    lemma PushedConnected(c: Client)
      requires Connected(pending, shown) && !c.connected
      ensures Connected([c] + pending, shown)
    {
    }

    /** `server_free_client`, the epoll call succeeding. */
    method FreeClient(cl: Client) returns (ok: bool)
      requires FreeSlots() && fdpoll.Valid()
      modifies this`freeCount, this`freed, freeList, fdpoll, fdpoll.nodes
      ensures FreeSlots() && fdpoll.Valid()
      ensures ok <==> old(freeCount) < P.MAX_HANDLERS && cl !in old(freed)
                      && old(fdpoll.count) > 0 && cl.socket in old(P.Fds(fdpoll.nodes))
      ensures freed == if ok then old(freed) + [cl] else old(freed)
      ensures ok ==> fdpoll.View() == P.Apply(old(fdpoll.View()), fdpoll.max, P.Op.Remove(cl.socket))
    {
      if freeCount < P.MAX_HANDLERS {
        var listed := InFreeList(cl);
        if !listed {
          var removed := fdpoll.Remove(cl.socket, true);
          if !removed {
            return false;
          }
          freeList[freeCount] := cl;
          freeCount := freeCount + 1;
          freed := freed + [cl];
          return true;
        }
      }
      ok := false;
    }

    method InFreeList(cl: Client) returns (r: bool)
      requires FreeSlots()
      ensures r <==> cl in freed
    {
      for i := 0 to freeCount
        invariant forall k :: 0 <= k < i ==> freed[k] != cl
      {
        if freeList[i] == cl {
          return true;
        }
      }
      r := false;
    }

    // -------------------------------------------------------------------------------------
    // Removing

    /** The screen loop of `server_remove_client`, up to taking the client off its screen. */
    method TakeFromScreen(fd: int) returns (cl: Client?, trail: ScreenNode?, scrn: ScreenNode?, ghost i: nat)
      requires ScreensLinked() && ScreensHold()
      modifies screens`clients, screens`members
      ensures ScreensLinked()
      ensures cl == null <==> NoSocket(shown, fd)
      ensures cl == null ==> ScreensHold()
      ensures forall k :: 0 <= k < |shown| ==> shown[k].next == null
      ensures cl != null ==>
                && i < |shown| == |screens| && cl == shown[i] && cl.socket == fd && scrn == screens[i]
                && trail == (if i > 0 then screens[i - 1] else null)
                && forall k :: 0 <= k < |screens| && k != i ==>
                     screens[k].members == [shown[k]] && screens[k].clients == shown[k]
    {
      cl, trail, scrn, i := null, null, mainScreen, 0;
      assert |shown| == |screens| && forall k :: 0 <= k < |shown| ==> shown[k].next == null;
      hide ScreensHold;
      while scrn != null
        invariant i <= |screens| && scrn == ScreenAt(i) && cl == null
        invariant forall k :: 0 <= k < |shown| ==> shown[k].next == null
        invariant trail == if i > 0 then screens[i - 1] else null
        invariant forall k :: 0 <= k < i ==> shown[k].socket != fd
        invariant ScreensLinked() && ScreensHold()
        decreases |screens| - i
      {
        cl := EmptyScreen(scrn, fd, i);
        if cl != null {
          return;
        }
        trail := scrn;
        scrn := scrn.next;
        i := i + 1;
      }
    }

    /** `screen_remove_client` on screen `i`. */
    method EmptyScreen(scrn: ScreenNode, fd: int, ghost i: nat) returns (cl: Client?)
      requires ScreensLinked() && ScreensHold() && i < |screens| && scrn == screens[i]
      modifies scrn`clients, scrn`members
      ensures cl == if shown[i].socket == fd then shown[i] else null
      ensures cl == null ==> ScreensHold()
      ensures |shown| == |screens|
      ensures forall k :: 0 <= k < |shown| ==> shown[k].next == null
      ensures forall k :: 0 <= k < |screens| && k != i ==>
                screens[k].members == [shown[k]] && screens[k].clients == shown[k]
    {
      assert scrn.members == [shown[i]] && scrn.Linked();
      cl := scrn.RemoveClient(fd);
      if cl == null {
        assert scrn.members[0] == shown[i];
        assert scrn.members == [shown[i]] && scrn.clients == shown[i];
      } else {
        assert cl == shown[i];
      }
    }

    /** `*trail = scrn->next; free(scrn)`. */
    method DropScreen(trail: ScreenNode?, scrn: ScreenNode, ghost i: nat)
      requires ScreensLinked() && |shown| == |screens| && i < |screens| && scrn == screens[i]
      requires trail == if i > 0 then screens[i - 1] else null
      requires forall k :: 0 <= k < |shown| ==> shown[k].next == null
      requires forall k :: 0 <= k < |screens| && k != i ==>
                 screens[k].members == [shown[k]] && screens[k].clients == shown[k]
      modifies this`mainScreen, this`screens, this`shown, screens`next
      ensures ScreensLinked() && ScreensHold()
      ensures screens == CutOut(old(screens), i) && shown == CutOut(old(shown), i)
    {
      hide ScreensLinked;
      UnlinkScreen(trail, scrn, i);
      shown := CutOut(shown, i);
    }

    method UnlinkScreen(trail: ScreenNode?, scrn: ScreenNode, ghost i: nat)
      requires ScreensLinked() && i < |screens| && scrn == screens[i]
      requires trail == if i > 0 then screens[i - 1] else null
      modifies this`mainScreen, this`screens, screens`next
      ensures ScreensLinked() && screens == CutOut(old(screens), i)
    {
      CutOutMembers(screens, i);
      if trail == null {
        mainScreen := scrn.next;
      } else {
        trail.next := scrn.next;
      }
      screens := CutOut(screens, i);
    }

    /** `server_free_client` for a client just taken off its list. */
    method Retire(cl: Client)
      requires FreeSlots() && Handlers() && freeCount < P.MAX_HANDLERS
      requires cl !in freed && cl.socket in P.Fds(fdpoll.nodes)
      requires NoSocket(pending, cl.socket) && NoSocket(shown, cl.socket)
      modifies this`freeCount, this`freed, freeList, fdpoll, fdpoll.nodes
      ensures FreeSlots() && Handlers() && freed == old(freed) + [cl]
    {
      ghost var fds := P.Fds(fdpoll.nodes);
      WithoutFacts(fds, cl.socket);
      var ok := FreeClient(cl);
      assert P.Fds(fdpoll.nodes) == Without(fds, cl.socket);
    }

    /** The pending branch of `server_remove_client`. */
    method RemovePendingClient(fd: int) returns (cl: Client?, ghost i: nat)
      requires Chains() && Partition() && Connected(pending, shown)
      requires FreeSlots() && Handlers() && freeCount < P.MAX_HANDLERS
      modifies this`pendingClients, this`pending, pending`next
      modifies this`freeCount, this`freed, freeList, fdpoll, fdpoll.nodes
      ensures Chains() && Partition() && Connected(pending, shown) && FreeSlots() && Handlers()
      ensures cl == null <==> NoSocket(old(pending), fd)
      ensures if cl == null then pending == old(pending) && freed == old(freed)
              else
                && i < |old(pending)| && old(pending)[i] == cl && cl.socket == fd
                && pending == CutOut(old(pending), i) && freed == old(freed) + [cl]
    {
      hide Chains, Connected, FreeSlots, Watched, Partitioned;
      cl, i := DetachPending(fd);
      if cl != null {
        LeftPending(old(pending), shown, freed, reclaimed, i);
        ConnectedCut(old(pending), shown, i);
        WatchedCut(old(pending), i);
        RetirePending(old(pending), shown, freed, reclaimed, i);
        Retire(cl);
      }
    }

    lemma WatchedCut(pending: seq<Client>, i: nat)
      requires Watched(pending, shown, freed) && i < |pending|
      ensures Watched(CutOut(pending, i), shown, freed) && pending[i].socket in P.Fds(fdpoll.nodes)
    {
    }

    lemma WatchedCutShown(shown: seq<Client>, i: nat)
      requires Watched(pending, shown, freed) && i < |shown|
      ensures Watched(pending, CutOut(shown, i), freed) && shown[i].socket in P.Fds(fdpoll.nodes)
    {
    }

    lemma WatchedMoved(pending: seq<Client>, shown: seq<Client>, i: nat)
      requires Watched(pending, shown, freed) && i < |pending|
      ensures Watched(CutOut(pending, i), shown + [pending[i]], freed)
    {
    }

    /** The list surgery of the screen branch: the client and its screen are unlinked. */
    method DetachShown(fd: int) returns (cl: Client?, ghost i: nat)
      requires Chains()
      modifies this`mainScreen, this`screens, this`shown, screens`next, screens`clients, screens`members
      ensures Chains()
      ensures cl == null <==> NoSocket(old(shown), fd)
      ensures cl == null ==> shown == old(shown)
      ensures cl != null ==>
                i < |old(shown)| && old(shown)[i] == cl && cl.socket == fd && shown == CutOut(old(shown), i)
    {
      hide PendingLinked, ScreensLinked, ScreensHold;
      var trail, scrn;
      cl, trail, scrn, i := TakeFromScreen(fd);
      if cl != null {
        DropScreen(trail, scrn, i);
      }
    }

    /** The screen branch of `server_remove_client`. */
    method RemoveShownClient(fd: int) returns (cl: Client?, ghost i: nat)
      requires Chains() && Partition() && Connected(pending, shown)
      requires FreeSlots() && Handlers() && freeCount < P.MAX_HANDLERS
      modifies this`mainScreen, this`screens, this`shown, screens`next, screens`clients, screens`members
      modifies this`freeCount, this`freed, freeList, fdpoll, fdpoll.nodes
      ensures Chains() && Partition() && Connected(pending, shown) && FreeSlots() && Handlers()
      ensures cl == null <==> NoSocket(old(shown), fd)
      ensures if cl == null then
                && shown == old(shown) && freed == old(freed)
                && freeCount == old(freeCount) && fdpoll.nodes == old(fdpoll.nodes)
              else
                && i < |old(shown)| && old(shown)[i] == cl && cl.socket == fd
                && shown == CutOut(old(shown), i) && freed == old(freed) + [cl]
    {
      hide Chains, Connected, FreeSlots, Watched, Partitioned;
      cl, i := DetachShown(fd);
      if cl != null {
        LeftShown(pending, old(shown), freed, reclaimed, i);
        ConnectedCutShown(pending, old(shown), i);
        WatchedCutShown(old(shown), i);
        RetireShown(pending, old(shown), freed, reclaimed, i);
        Retire(cl);
      }
    }

    // -------------------------------------------------------------------------------------
    // Pending syncs

    method AddSyncClient(cl: Client) returns (ok: bool)
      requires SyncSlots() && (cl.syncing <==> cl in sync)
      modifies this`sync, syncClients, cl`syncing
      ensures SyncSlots()
      ensures ok <==> cl in old(sync) || |old(sync)| < MAX_CLIENTS
      ensures ok ==> cl.syncing && sync == if cl in old(sync) then old(sync) else old(sync) + [cl]
      ensures !ok ==> !cl.syncing && sync == old(sync)
    {
      if cl.syncing {
        return true;
      }
      for i := 0 to MAX_CLIENTS
        invariant i <= |sync| && sync == old(sync) && SyncSlots() && !cl.syncing
      {
        if syncClients[i] == null {
          syncClients[i] := cl;
          sync := sync + [cl];
          cl.syncing := true;
          return true;
        }
      }
      ok := false;
    }

    /** `spr16_server_sync` refines the value-level handler, and enters the client in the table. */
    method ServerSync(cl: Client, flags: SyncFlags, d: B.Region) returns (ok: bool)
      requires cl.SlotsValid() && SyncSlots() && (cl.syncing <==> cl in sync)
      modifies cl`dmgCount, cl.dmg, cl`syncFlags, cl`syncing, this`sync, syncClients
      ensures cl.SlotsValid() && SyncSlots() && (cl.syncing <==> cl in sync)
      ensures var r := H.HandleSync(old(Record(cl)), fb, d, flags);
              && Record(cl) == r.peer
              && (ok <==> r.ok && (r.enlist ==> cl in old(sync) || |old(sync)| < MAX_CLIENTS))
              && sync == if r.enlist && cl !in old(sync) && |old(sync)| < MAX_CLIENTS then old(sync) + [cl] else old(sync)
    {
      hide SyncSlots, D.Accumulate, D.Accepted, Record;
      ok := TakeDamage(cl, d);
      if !ok {
        return false;
      }
      if flags.other != 0 {
        return false;
      } else if flags == NO_FLAGS {
        return true;
      }
      MergeFlags(cl, flags);
      ok := EnterTable(cl);
    }

    /** `add_sync_client` leaves the rest of the record alone. */
    method EnterTable(cl: Client) returns (ok: bool)
      requires cl.SlotsValid() && SyncSlots() && (cl.syncing <==> cl in sync)
      modifies this`sync, syncClients, cl`syncing
      ensures cl.SlotsValid() && SyncSlots() && (cl.syncing <==> cl in sync) && Record(cl) == old(Record(cl))
      ensures ok <==> cl in old(sync) || |old(sync)| < MAX_CLIENTS
      ensures sync == if cl !in old(sync) && |old(sync)| < MAX_CLIENTS then old(sync) + [cl] else old(sync)
    {
      hide SyncSlots;
      ok := AddSyncClient(cl);
    }

    /** The checks of `spr16_server_sync`, and the damage. */
    method TakeDamage(cl: Client, d: B.Region) returns (ok: bool)
      requires cl.SlotsValid()
      modifies cl`dmgCount, cl.dmg
      ensures cl.SlotsValid()
      ensures ok <==> D.Accepted(fb.width, fb.height, d) && old(Record(cl)).mapped
      ensures var was := old(Record(cl));
              Record(cl) == if ok then was.(slots := D.Accumulate(was.slots, d)) else was
    {
      if d.xmax >= fb.width || d.ymax >= fb.height || d.xmin >= fb.width || d.ymin >= fb.height
         || d.xmax < d.xmin || d.ymax < d.ymin {
        return false;
      }
      if cl.pixels == null {
        return false;
      }
      D.AccumulateDmg(cl, d);
      ok := true;
    }

    method MergeFlags(cl: Client, flags: SyncFlags)
      requires cl.SlotsValid() && flags.other == 0
      modifies cl`syncFlags
      ensures cl.SlotsValid()
      ensures var was := old(Record(cl)); Record(cl) == was.(syncFlags := Merge(was.syncFlags, flags))
    {
      cl.syncFlags := Merge(cl.syncFlags, flags);
    }

    /** The focused client's record and the sync table after a report of its whole sprite. */
    ghost predicate Reported(c: Client, was: H.Peer, oldSync: seq<Client>)
      requires c.SlotsValid() && |was.slots| <= DMG_SLOTS
      reads c, c.dmg, this`sync
    {
      var d := Entire(was.width, was.height);
      var r := H.HandleSync(was, fb, d, ASYNC_VBLANK);
      && Record(c) == r.peer
      && sync == if r.enlist && c !in oldSync && |oldSync| < MAX_CLIENTS then oldSync + [c] else oldSync
    }

    /** The client now focused has been reported whole, on the record it had before. */
    twostate predicate FocusReported()
      reads this`shown, this`sync, shown, (set c | c in shown :: c.dmg)
    {
      if shown == [] then sync == old(sync)
      else
        var f := shown[0];
        f in old(shown) && f.SlotsValid() && old(f.SlotsValid()) && Reported(f, old(Record(f)), old(sync))
    }

    twostate predicate SameRecord(c: Client)
      reads c, c.dmg
    {
      old(c.SlotsValid()) ==> c.SlotsValid() && Record(c) == old(Record(c))
    }

    lemma OwnsShown()
      ensures Members(shown) <= Owned()
    {
    }

    lemma ShownSlots(owned: set<Client>)
      requires SlotsKept(owned) && Members(shown) <= owned
      ensures forall c :: c in shown ==> c.SlotsValid()
    {
      assert forall c :: c in shown ==> c in Members(shown);
    }

    /** The client loop of `server_sync_fullscreen`, on the one client of a screen. */
    method SyncScreen(first: Client, ghost owned: set<Client>)
      requires SyncSlots() && first.next == null && first in owned && SyncMembers(owned) && SlotsKept(owned)
      modifies this`sync, syncClients, first`dmgCount, first.dmg, first`syncFlags, first`syncing
      ensures SyncSlots() && SyncMembers(owned) && SlotsKept(owned)
      ensures Reported(first, old(Record(first)), old(sync))
    {
      SyncKnown(owned, first);
      hide SyncSlots, Record, Reported;
      var cl: Client? := first;
      while cl != null
        invariant SyncSlots() && first.SlotsValid() && (first.syncing <==> first in sync)
        invariant cl != null ==> cl == first && sync == old(sync) && Record(first) == old(Record(first))
        invariant cl == null ==> Reported(first, old(Record(first)), old(sync))
        decreases if cl != null then 1 else 0
      {
        SyncWhole(cl);
        cl := cl.next;
      }
    }

    /** One report of a whole sprite; a failure is ignored. */
    method SyncWhole(cl: Client)
      requires cl.SlotsValid() && SyncSlots() && (cl.syncing <==> cl in sync)
      modifies cl`dmgCount, cl.dmg, cl`syncFlags, cl`syncing, this`sync, syncClients
      ensures cl.SlotsValid() && SyncSlots() && (cl.syncing <==> cl in sync)
      ensures Reported(cl, old(Record(cl)), old(sync))
    {
      hide SyncSlots, H.HandleSync;
      var d := Entire(cl.width, cl.height);
      var ok := ServerSync(cl, ASYNC_VBLANK, d);
    }

    lemma SyncKnown(owned: set<Client>, cl: Client)
      requires SyncMembers(owned) && SlotsKept(owned) && cl in owned
      ensures cl.SlotsValid() && (cl.syncing <==> cl in sync)
    {
    }

    /** `server_sync_fullscreen`. */
    method SyncFullscreen(ghost owned: set<Client>)
      requires ScreensLinked() && ScreensHold() && SyncSlots()
      requires Members(shown) <= owned && SyncMembers(owned) && SlotsKept(owned)
      modifies this`sync, syncClients
      modifies shown`dmgCount, (set c | c in shown :: c.dmg), shown`syncFlags, shown`syncing
      ensures SyncSlots() && SyncMembers(owned) && SlotsKept(owned)
      ensures if shown == [] then sync == old(sync) else Reported(shown[0], old(Record(shown[0])), old(sync))
    {
      if mainScreen == null {
        return;
      }
      assert mainScreen == screens[0] && mainScreen.clients == shown[0];
      assert shown[0] in Members(shown);
      hide ScreensLinked, ScreensHold, SyncSlots, Reported, SyncMembers;
      SyncScreen(mainScreen.clients, owned);
    }

    // -------------------------------------------------------------------------------------
    // The server loop

    /** `fb_sync_client` on a vblank request: an active server asks the kernel for an event. */
    method SyncToVblank(cl: Client, active: bool)
      modifies this`vblanks
      ensures vblanks == old(vblanks) + if active && cl.syncFlags.vblank then 1 else 0
    {
      if cl.syncFlags.vblank {
        if active {
          vblanks := vblanks + 1;
        }
      }
    }

    /** The sync table with its first `i` entries cleared. */
    ghost predicate Cleared(list: seq<Client>, i: nat)
      reads syncClients
    {
      && syncClients.Length == MAX_CLIENTS && |list| <= MAX_CLIENTS
      && forall k :: 0 <= k < MAX_CLIENTS ==> syncClients[k] == if i <= k < |list| then list[k] else null
    }

    /** One turn of the loop; `more` is false at the first null entry. */
    method RunSync(ghost list: seq<Client>, i: nat, active: bool) returns (more: bool)
      requires Cleared(list, i) && i <= |list| && i < MAX_CLIENTS
      modifies this`vblanks, syncClients, list`syncing
      ensures more <==> i < |list|
      ensures more ==> Cleared(list, i + 1) && !list[i].syncing
      ensures forall c :: c in list && (!more || c != list[i]) ==> c.syncing == old(c.syncing)
      ensures !more ==> Cleared(list, i)
      ensures vblanks == old(vblanks) + if more && active && list[i].syncFlags.vblank then 1 else 0
    {
      var cl := syncClients[i];
      if cl == null {
        return false;
      }
      SyncToVblank(cl, active);
      cl.syncing := false;
      syncClients[i] := null;
      more := true;
    }

    /** The loop of `spr16_server_update` over the pending syncs: it empties the table. */
    method RunSyncs(active: bool)
      requires SyncSlots() && Distinct(sync)
      modifies this`sync, this`vblanks, syncClients, sync`syncing
      ensures SyncSlots() && sync == []
      ensures forall c :: c in old(sync) ==> !c.syncing
      ensures vblanks == old(vblanks) + if active then old(Requests(Flags(sync))) else 0
    {
      if syncClients[0] != null {
        TableStart();
        RunAll(sync, active);
        sync := [];
        TableEmpty(old(sync));
      }
    }

    lemma TableStart()
      requires SyncSlots()
      ensures Cleared(sync, 0) && sync[..0] == []
    {
    }

    lemma TableEmpty(list: seq<Client>)
      requires Cleared(list, |list|) && sync == []
      ensures SyncSlots()
    {
    }

    /** The loop itself, over the clients the table holds. */
    method RunAll(ghost list: seq<Client>, active: bool)
      requires Cleared(list, 0) && Distinct(list)
      modifies this`vblanks, syncClients, list`syncing
      ensures Cleared(list, |list|)
      ensures forall c :: c in list ==> !c.syncing
      ensures vblanks == old(vblanks) + if active then old(Requests(Flags(list))) else 0
    {
      hide Requests, Flags;
      ghost var flags := Flags(list);
      NoRequestsYet(flags);
      var i, more := 0, true;
      while i < MAX_CLIENTS && more
        invariant i <= |list| && Cleared(list, i)
        invariant !more ==> i == |list|
        invariant forall k :: 0 <= k < i ==> !list[k].syncing
        invariant vblanks == old(vblanks) + if active then Requests(flags[..i]) else 0
        decreases MAX_CLIENTS - i, more
      {
        RequestsNext(flags, i);
        more := RunSync(list, i, active);
        if more {
          i := i + 1;
        }
      }
      assert i == |list| && flags[..|list|] == flags;
    }

    /** `server_free_list`: memory is given back only for clients that no table mentions. */
    method FreeList()
      requires FreeSlots() && Partition() && Handlers() && forall c :: c in freed ==> c !in sync
      modifies this`freeCount, this`freed, this`reclaimed, freeList
      ensures FreeSlots() && Partition() && Handlers() && freed == []
      ensures reclaimed == old(reclaimed) + Members(old(freed))
    {
      for i := 0 to freeCount
        invariant freeCount == old(freeCount) && freed == old(freed) && reclaimed == old(reclaimed)
      {
        freeList[i] := null;
      }
      ReclaimPartition(pending, shown, freed, reclaimed);
      reclaimed := reclaimed + Members(freed);
      freed := [];
      freeCount := 0;
    }

    /** The first half of `spr16_server_update` after the poll: the table is emptied. */
    method FlushTable(active: bool)
      requires Valid()
      modifies this`sync, this`vblanks, syncClients, sync`syncing
      ensures Valid() && sync == []
      ensures vblanks == old(vblanks) + if active then old(Requests(Flags(sync))) else 0
    {
      hide Lists, Watched, SlotsKept, SyncSlots, FreeSlots, Requests, Flags, Owned;
      TablesApart();
      RunSyncs(active);
      AllSynced(old(Owned()));
      assert Lists();
      assert FreeSlots();
    }

    /** The second half: with the table empty, the clients that were removed can go. */
    method ReleaseAll()
      requires Valid() && sync == []
      modifies this`freeCount, this`freed, this`reclaimed, freeList
      ensures Valid() && freed == []
      ensures reclaimed == old(reclaimed) + Members(old(freed))
    {
      hide Chains, Partitioned, Connected, Watched, SlotsKept, SyncSlots, FreeSlots, SyncMembers;
      TablesApart();
      FreeList();
      FewerOwned(old(Owned()));
    }

    /** `spr16_server_update` after the poll. */
    method Update(active: bool)
      requires Valid()
      modifies this`sync, this`vblanks, syncClients, sync`syncing
      modifies this`freeCount, this`freed, this`reclaimed, freeList
      ensures Valid()
      ensures sync == [] && freed == []
      ensures pending == old(pending) && shown == old(shown)
      ensures old(Recorded()) ==> Recorded()
      ensures reclaimed == old(reclaimed) + Members(old(freed))
      ensures vblanks == old(vblanks) + if active then old(Requests(Flags(sync))) else 0
    {
      hide Valid, RecordsLinked, RecordClients, Requests, Flags;
      FlushTable(active);
      ReleaseAll();
    }

    lemma TablesApart()
      requires FreeSlots()
      ensures freeList != syncClients
    {
    }

    /** With the table empty, no client is marked. */
    twostate lemma AllSynced(owned: set<Client>)
      requires old(SyncMembers(owned)) && sync == []
      requires forall c :: c in old(sync) ==> !c.syncing
      requires forall c :: c in owned && c !in old(sync) ==> c.syncing == old(c.syncing)
      ensures SyncMembers(owned)
    {
    }

    lemma FewerOwned(owned: set<Client>)
      requires SyncMembers(owned) && SlotsKept(owned) && sync == []
      requires Owned() <= owned
      ensures SyncMembers(Owned()) && SlotsKept(Owned())
    {
    }

    // -------------------------------------------------------------------------------------
    // The server's own operations

    /** `server_remove_client`: the client with socket `fd` goes from its screen, or from the pending
        list, to the free list; nothing else moves; a removal from the screens is followed by
        a report of the client then focused. */
    method RemoveClient(fd: int) returns (ok: bool, ghost i: nat)
      requires Valid() && freeCount < P.MAX_HANDLERS
      modifies this`pendingClients, this`pending, pending`next
      modifies this`mainScreen, this`screens, this`shown, screens`next, screens`clients, screens`members
      modifies this`freeCount, this`freed, freeList, fdpoll, fdpoll.nodes
      modifies this`sync, syncClients
      modifies shown`dmgCount, (set c | c in shown :: c.dmg), shown`syncFlags, shown`syncing
      ensures Valid() && Owned() == old(Owned())
      ensures ok <==> !NoSocket(old(shown), fd) || !NoSocket(old(pending), fd)
      ensures if !NoSocket(old(shown), fd) then
                && i < |old(shown)| && old(shown)[i].socket == fd
                && shown == CutOut(old(shown), i) && freed == old(freed) + [old(shown)[i]]
                && pending == old(pending)
                && FocusReported()
              else if !NoSocket(old(pending), fd) then
                && i < |old(pending)| && old(pending)[i].socket == fd
                && pending == CutOut(old(pending), i) && freed == old(freed) + [old(pending)[i]]
                && shown == old(shown) && sync == old(sync)
              else
                pending == old(pending) && shown == old(shown) && freed == old(freed) && sync == old(sync)
    {
      hide Valid;
      ok, i := DropShown(fd);
      if !ok {
        ok, i := DropPending(fd);
      }
    }

    /** The screen branch before the report. */
    method TakeTables(fd: int) returns (ok: bool, ghost i: nat)
      requires Valid() && freeCount < P.MAX_HANDLERS
      modifies this`mainScreen, this`screens, this`shown, screens`next, screens`clients, screens`members
      modifies this`freeCount, this`freed, freeList, fdpoll, fdpoll.nodes
      ensures Lists() && SyncSlots() && FreeSlots() && Handlers() && Owned() == old(Owned())
      ensures SyncMembers(Owned()) && SlotsKept(Owned())
      ensures ok <==> !NoSocket(old(shown), fd)
      ensures if ok then
                && i < |old(shown)| && old(shown)[i].socket == fd
                && shown == CutOut(old(shown), i) && freed == old(freed) + [old(shown)[i]]
              else
                && shown == old(shown) && freed == old(freed)
                && freeCount == old(freeCount) && fdpoll.nodes == old(fdpoll.nodes)
    {
      hide Chains, Partitioned, Connected, Watched, SlotsKept, SyncSlots, FreeSlots, SyncMembers, NoSocket;
      TablesApart();
      var cl;
      cl, i := RemoveShownClient(fd);
      ok := cl != null;
      if ok {
        MovedShown(old(pending), old(shown), old(freed), i);
      }
      assert Owned() == old(Owned());
    }

    /** The screen branch before the report: no record is touched. */
    method TakeShown(fd: int) returns (ok: bool, ghost i: nat)
      requires Valid() && freeCount < P.MAX_HANDLERS
      modifies this`mainScreen, this`screens, this`shown, screens`next, screens`clients, screens`members
      modifies this`freeCount, this`freed, freeList, fdpoll, fdpoll.nodes
      ensures Lists() && SyncSlots() && FreeSlots() && Handlers() && Owned() == old(Owned())
      ensures SyncMembers(Owned()) && SlotsKept(Owned())
      ensures ok <==> !NoSocket(old(shown), fd)
      ensures if ok then
                && i < |old(shown)| && old(shown)[i].socket == fd
                && shown == CutOut(old(shown), i) && freed == old(freed) + [old(shown)[i]]
              else
                && shown == old(shown) && freed == old(freed)
                && freeCount == old(freeCount) && fdpoll.nodes == old(fdpoll.nodes)
      ensures forall c :: c in old(shown) ==> SameRecord(c)
    {
      hide Lists, Watched, SlotsKept, SyncSlots, FreeSlots, SyncMembers, Owned, NoSocket;
      ok, i := TakeTables(fd);
    }

    /** The screen branch, with the report that follows it. */
    method DropShown(fd: int) returns (ok: bool, ghost i: nat)
      requires Valid() && freeCount < P.MAX_HANDLERS
      modifies this`mainScreen, this`screens, this`shown, screens`next, screens`clients, screens`members
      modifies this`freeCount, this`freed, freeList, fdpoll, fdpoll.nodes
      modifies this`sync, syncClients
      modifies shown`dmgCount, (set c | c in shown :: c.dmg), shown`syncFlags, shown`syncing
      ensures Valid() && Owned() == old(Owned())
      ensures ok <==> !NoSocket(old(shown), fd)
      ensures if ok then
                && i < |old(shown)| && old(shown)[i].socket == fd
                && shown == CutOut(old(shown), i) && freed == old(freed) + [old(shown)[i]]
                && FocusReported()
              else
                && shown == old(shown) && freed == old(freed) && sync == old(sync)
                && freeCount == old(freeCount) && fdpoll.nodes == old(fdpoll.nodes)
    {
      OwnsShown();
      hide Lists, Watched, SlotsKept, SyncSlots, FreeSlots, SyncMembers, Members, NoSocket, Reported, Record;
      ghost var owned := Owned();
      TablesApart();
      ShownSlots(owned);
      ok, i := TakeShown(fd);
      if ok {
        OwnsShown();
        assert shown != [] ==> shown[0] in old(shown) && SameRecord(shown[0]);
        ResyncLists(owned);
        ShownSlots(owned);
      }
    }

    method ResyncAll(ghost owned: set<Client>)
      requires Chains() && SyncSlots() && SyncMembers(owned) && SlotsKept(owned) && Members(shown) <= owned
      modifies this`sync, syncClients
      modifies shown`dmgCount, (set c | c in shown :: c.dmg), shown`syncFlags, shown`syncing
      ensures SyncSlots() && SyncMembers(owned) && SlotsKept(owned)
      ensures if shown == [] then sync == old(sync) else Reported(shown[0], old(Record(shown[0])), old(sync))
    {
      hide PendingLinked, ScreensLinked, ScreensHold, SlotsKept, SyncSlots, SyncMembers, Reported;
      SyncFullscreen(owned);
    }

    /** The pending branch. */
    method DropPending(fd: int) returns (ok: bool, ghost i: nat)
      requires Valid() && freeCount < P.MAX_HANDLERS
      modifies this`pendingClients, this`pending, pending`next
      modifies this`freeCount, this`freed, freeList, fdpoll, fdpoll.nodes
      ensures Valid() && Owned() == old(Owned())
      ensures ok <==> !NoSocket(old(pending), fd)
      ensures if ok then
                && i < |old(pending)| && old(pending)[i].socket == fd
                && pending == CutOut(old(pending), i) && freed == old(freed) + [old(pending)[i]]
              else pending == old(pending) && freed == old(freed)
    {
      hide Chains, Partitioned, Connected, Watched, SlotsKept, SyncSlots, FreeSlots, SyncMembers;
      TablesApart();
      var cl;
      cl, i := RemovePendingClient(fd);
      ok := cl != null;
      if ok {
        MovedPending(old(pending), old(shown), old(freed), i);
      }
    }

    /** Between callbacks: each live client has exactly one callback record, and no other client has. */
    ghost predicate Recorded()
      reads this`pending, this`shown, this`cbData, this`records, records`next
    {
      RecordsLinked() && Members(RecordClients(records)) == Live()
    }

    /** `server_addclient`, with the tables it does not touch. */
    method AdmitClient(fd: int, k: Kernel) returns (ok: bool, ghost cl: Client?)
      requires Valid() && RecordsLinked() && Members(RecordClients(records)) <= Owned() && NoSocket(freed, fd)
      modifies this`pendingClients, this`pending, this`cbData, this`records, records`next, this`reclaimed, fdpoll
      ensures RecordsLinked() && (Valid() <==> ok || !old(Begins(fd, k)))
      ensures ok <==> old(Begins(fd, k) && Completes(fd, k))
      ensures old(Begins(fd, k)) ==> cl != null && fresh(cl) && cl.socket == fd && pending == [cl] + old(pending)
      ensures !old(Begins(fd, k)) ==> pending == old(pending) && records == old(records)
      ensures RecordClients(records) == (if ok then [cl] else []) + old(RecordClients(records))
      ensures reclaimed == old(reclaimed) + if old(Begins(fd, k)) && !ok then {cl} else {}
    {
      hide Lists, Watched, SyncSlots, FreeSlots, RecordsLinked, SyncMembers, SlotsKept, Begins, Completes, NoSocket;
      ghost var owned := Owned();
      SyncKept(owned);
      ok, cl := AddClient(fd, k);
      if ok {
        MembersPrepend(old(pending), cl);
        assert Owned() == owned + {cl};
        GrownOwned(owned, cl);
      }
    }

    /** `server_addclient`: a new client enters the pending list, the callback records and the poller.
        The registry stays consistent if and only if nothing fails after the client is listed. */
    method Admit(fd: int, k: Kernel) returns (ok: bool, ghost cl: Client?)
      requires Valid() && Recorded() && NoSocket(freed, fd)
      modifies this`pendingClients, this`pending, this`cbData, this`records, records`next, this`reclaimed, fdpoll
      ensures ok <==> old(Begins(fd, k) && Completes(fd, k))
      ensures Valid() <==> ok || !old(Begins(fd, k))
      ensures Valid() ==> Recorded() && reclaimed == old(reclaimed)
      ensures old(Begins(fd, k)) ==> cl != null && fresh(cl) && cl.socket == fd && pending == [cl] + old(pending)
      ensures !old(Begins(fd, k)) ==> pending == old(pending) && records == old(records)
      ensures RecordClients(records) == (if ok then [cl] else []) + old(RecordClients(records))
      ensures !Valid() ==> reclaimed == old(reclaimed) + {cl}
    {
      hide Valid, RecordsLinked, Members, Begins, Completes;
      ghost var clients := RecordClients(records);
      ok, cl := AdmitClient(fd, k);
      if ok {
        ghost var c: Client := cl;
        MembersPrepend(old(pending), c);
        MembersPrepend(clients, c);
        assert Live() == old(Live()) + {c};
      }
    }

    /** `server_remove_client` for a live client. */
    method RemoveLive(cl: Client)
      requires Valid() && cl in Live() && freeCount < P.MAX_HANDLERS
      modifies this`pendingClients, this`pending, pending`next
      modifies this`mainScreen, this`screens, this`shown, screens`next, screens`clients, screens`members
      modifies this`freeCount, this`freed, freeList, fdpoll, fdpoll.nodes
      modifies this`sync, syncClients
      modifies shown`dmgCount, (set c | c in shown :: c.dmg), shown`syncFlags, shown`syncing
      ensures Valid() && Live() == old(Live()) - {cl} && freed == old(freed) + [cl]
      ensures View() == Leaving(old(View()), cl.socket)
    {
      OnlyHolder(pending, shown, freed, reclaimed, cl);
      SocketsDiffer();
      hide Valid, Partitioned, NoSocket;
      var ok, i := RemoveClient(cl.socket);
      LiveWithout(old(pending), old(shown), pending, shown, cl, i);
      RemovedView(old(pending), old(shown), old(freed), cl, i);
    }

    /** No two clients of a list share a socket. */
    lemma SocketsDiffer()
      requires Valid()
      ensures Distinct(SocketsOf(pending)) && Distinct(SocketsOf(shown))
    {
      var all := Members(pending) + Members(shown) + Members(freed);
      DistinctSockets(pending, all);
      DistinctSockets(shown, all);
    }

    lemma RemovedView(pending': seq<Client>, shown': seq<Client>, freed': seq<Client>, cl: Client, i: nat)
      requires Distinct(SocketsOf(pending')) && Distinct(SocketsOf(shown')) && freed == freed' + [cl]
      requires if cl in shown' then
                 i < |shown'| && shown'[i] == cl && shown == CutOut(shown', i) && pending == pending' && NoSocket(pending', cl.socket)
               else
                 i < |pending'| && pending'[i] == cl && pending == CutOut(pending', i) && shown == shown' && NoSocket(shown', cl.socket)
      ensures View() == Sockets(Without(SocketsOf(pending'), cl.socket), Without(SocketsOf(shown'), cl.socket),
                                SocketsOf(freed') + [cl.socket])
    {
      if cl in shown' {
        CutSockets(shown', i);
        NoSuchSocket(pending', cl.socket);
      } else {
        CutSockets(pending', i);
        NoSuchSocket(shown', cl.socket);
      }
      assert SocketsOf(freed' + [cl]) == SocketsOf(freed') + [cl.socket];
    }

    /** The error exit of `client_callback`: the client and its callback record are removed. */
    method Dismiss(cl: Client)
      requires Valid() && Recorded() && cl in Live() && freeCount < P.MAX_HANDLERS
      modifies this`pendingClients, this`pending, pending`next
      modifies this`mainScreen, this`screens, this`shown, screens`next, screens`clients, screens`members
      modifies this`freeCount, this`freed, freeList, fdpoll, fdpoll.nodes
      modifies this`sync, syncClients, this`cbData, this`records, records`next
      modifies shown`dmgCount, (set c | c in shown :: c.dmg), shown`syncFlags, shown`syncing
      ensures Valid() && Recorded()
      ensures Live() == old(Live()) - {cl} && freed == old(freed) + [cl]
      ensures View() == Leaving(old(View()), cl.socket)
    {
      hide Valid, Live, View, Leaving;
      RemoveLive(cl);
      DropRecord(cl);
    }

    lemma RecordsApart()
      requires RecordsLinked()
      ensures Distinct(RecordClients(records))
    {
    }

    /** `cb_data_remove`, as a set of recorded clients. */
    method DropRecord(cl: Client)
      requires Valid() && RecordsLinked() && cl in Members(RecordClients(records))
      modifies this`cbData, this`records, records`next
      ensures Valid() && RecordsLinked() && Members(RecordClients(records)) == old(Members(RecordClients(records))) - {cl}
    {
      hide PendingLinked, ScreensLinked, ScreensHold, Partitioned, Connected, RecordsLinked;
      hide Watched, SlotsKept, SyncSlots, FreeSlots, SyncMembers;
      ghost var was := records;
      RecordsApart();
      var found, j := RemoveRecord(cl);
      RecordedWithout(was, j);
    }

    lemma SyncKept(owned: set<Client>)
      requires SyncMembers(owned)
      ensures Members(sync) <= owned
    {
    }

    lemma GrownOwned(owned: set<Client>, cl: Client)
      requires SyncMembers(owned) && SlotsKept(owned) && cl !in owned && !cl.syncing && cl.SlotsValid()
      ensures SyncMembers(owned + {cl}) && SlotsKept(owned + {cl})
    {
      assert cl !in Members(sync);
    }

    /** `server_connect_client`, with the tables it does not touch. */
    method PromoteTables(cl: Client, memoryOk: bool) returns (ok: bool, ghost i: nat)
      requires Valid() && cl in Owned()
      modifies this`pendingClients, this`pending, this`mainScreen, this`screens, this`shown
      modifies pending`next, screens`next, cl`connected, cl`handshaking
      ensures Valid() && Live() == old(Live())
      ensures ok <==> memoryOk && cl in old(pending)
      ensures ok ==>
                && cl.connected && !cl.handshaking
                && i < |old(pending)| && old(pending)[i] == cl
                && pending == CutOut(old(pending), i) && shown == old(shown) + [cl]
      ensures !ok ==>
                && pending == old(pending) && shown == old(shown)
                && cl.connected == old(cl.connected) && cl.handshaking == old(cl.handshaking)
    {
      hide Lists, SyncSlots, FreeSlots, SyncMembers, SlotsKept, Watched;
      ok, i := ConnectClient(cl, memoryOk);
      if ok {
        WatchedMoved(old(pending), old(shown), i);
      }
      assert Owned() == old(Owned()) && SyncSlots() && FreeSlots();
      assert SyncMembers(Owned()) && SlotsKept(Owned());
    }

    /** `server_connect_client`, keeping the whole registry consistent. */
    method Promote(cl: Client, memoryOk: bool) returns (ok: bool, ghost i: nat)
      requires Valid() && cl in Owned()
      modifies this`pendingClients, this`pending, this`mainScreen, this`screens, this`shown
      modifies pending`next, screens`next, cl`connected, cl`handshaking
      ensures Valid() && Owned() == old(Owned()) && Live() == old(Live())
      ensures old(Recorded()) ==> Recorded()
      ensures ok <==> memoryOk && cl in old(pending)
      ensures ok ==>
                && cl.connected && !cl.handshaking
                && i < |old(pending)| && old(pending)[i] == cl
                && pending == CutOut(old(pending), i) && shown == old(shown) + [cl]
      ensures !ok ==>
                && pending == old(pending) && shown == old(shown)
                && cl.connected == old(cl.connected) && cl.handshaking == old(cl.handshaking)
    {
      hide Valid, RecordsLinked, RecordClients, Live;
      ok, i := PromoteTables(cl, memoryOk);
    }

    /** `main_screen_switch(-1)`: with two screens or more the list is rotated left by one and the new
        head is reported whole. */
    method SwitchScreen()
      requires Valid()
      modifies this`mainScreen, this`screens, this`shown, screens`next, this`sync, syncClients
      modifies shown`dmgCount, (set c | c in shown :: c.dmg), shown`syncFlags, shown`syncing
      ensures Valid() && Owned() == old(Owned()) && pending == old(pending)
      ensures shown == Turn(old(shown)) && Live() == old(Live())
      ensures old(Recorded()) ==> Recorded()
      ensures |shown| < 2 ==> sync == old(sync)
      ensures |shown| >= 2 ==> FocusReported()
    {
      TwoScreens();
      hide Valid, Recorded, Live, Owned, FocusReported;
      if mainScreen != null && mainScreen.next != null {
        TurnRecorded();
      }
    }

    /** The turn leaves the callback records alone. */
    method TurnRecorded()
      requires Valid() && |shown| >= 2
      modifies this`mainScreen, this`screens, this`shown, screens`next, this`sync, syncClients
      modifies shown`dmgCount, (set c | c in shown :: c.dmg), shown`syncFlags, shown`syncing
      ensures Valid() && Owned() == old(Owned()) && pending == old(pending) && Live() == old(Live())
      ensures shown == old(shown)[1..] + [old(shown)[0]]
      ensures FocusReported() && (old(Recorded()) ==> Recorded())
    {
      hide Valid, RecordsLinked, RecordClients, Live, Owned, FocusReported;
      TurnAndReport();
    }

    lemma TwoScreens()
      requires Valid()
      ensures mainScreen != null && mainScreen.next != null <==> |shown| >= 2
    {
    }

    method TurnAndReport()
      requires Valid() && |shown| >= 2
      modifies this`mainScreen, this`screens, this`shown, screens`next, this`sync, syncClients
      modifies shown`dmgCount, (set c | c in shown :: c.dmg), shown`syncFlags, shown`syncing
      ensures Valid() && Owned() == old(Owned()) && pending == old(pending) && Live() == old(Live())
      ensures shown == old(shown)[1..] + [old(shown)[0]]
      ensures FocusReported()
    {
      hide Lists, Watched, SlotsKept, SyncSlots, FreeSlots, SyncMembers, Members, Reported, Record;
      ghost var owned := Owned();
      assert SyncMembers(owned) && SlotsKept(owned);
      TablesApart();
      ShownSlots(owned);
      TurnLists();
      assert shown[0] in old(shown) && SameRecord(shown[0]);
      ResyncLists(owned);
      ShownSlots(owned);
    }

    /** The rotation keeps every list consistent. */
    method TurnLists()
      requires Lists() && Handlers() && |shown| >= 2
      modifies this`mainScreen, this`screens, this`shown, screens`next
      ensures Lists() && Handlers() && Members(shown) == old(Members(shown))
      ensures shown == old(shown)[1..] + [old(shown)[0]]
      ensures forall c :: c in old(shown) ==> SameRecord(c)
    {
      hide Chains, Partitioned, Connected, Watched, Members;
      Rotated(pending, shown, freed, reclaimed);
      ConnectedTurned(pending, shown);
      TurnedHandlers();
      TurnScreens();
    }

    method ResyncLists(ghost owned: set<Client>)
      requires Lists() && SyncSlots() && SyncMembers(owned) && SlotsKept(owned) && Owned() == owned
      modifies this`sync, syncClients
      modifies shown`dmgCount, (set c | c in shown :: c.dmg), shown`syncFlags, shown`syncing
      ensures Lists() && SyncSlots() && SyncMembers(owned) && SlotsKept(owned)
      ensures if shown == [] then sync == old(sync) else Reported(shown[0], old(Record(shown[0])), old(sync))
    {
      hide Chains, Partitioned, Connected, SlotsKept, SyncSlots, SyncMembers, Members;
      ResyncAll(owned);
    }

    /** The rotation of the list, and of what the screens show. */
    method TurnScreens()
      requires Chains() && |shown| >= 2
      modifies this`mainScreen, this`screens, this`shown, screens`next
      ensures Chains() && shown == old(shown)[1..] + [old(shown)[0]]
    {
      hide PendingLinked, ScreensLinked;
      assert |shown| == |screens|;
      RotateScreens();
      shown := shown[1..] + [shown[0]];
      assert ScreensHold();
    }

    lemma TurnedHandlers()
      requires Handlers() && shown != []
      ensures Watched(pending, shown[1..] + [shown[0]], freed)
    {
    }

    // -------------------------------------------------------------------------------------
    // The handshake, on the record in memory

    /** `spr16_server_register_sprite` after the look-up of the client, without the direct mapping. */
    method RegisterSprite(cl: Client, width: nat, height: nat, bpp: nat, env: H.Env)
      returns (ok: bool, out: seq<H.Outbound>)
      requires cl.SlotsValid()
      modifies cl`handshaking, cl`width, cl`height, cl`bpp, cl`pixels, cl`shmFd, cl`recvFdWait
      ensures cl.SlotsValid()
      ensures var r := H.HandleRegister(old(Record(cl)), fb, width, height, bpp, env);
              Record(cl) == r.peer && ok == r.ok && out == r.out
      ensures ok ==> cl.pixels != null && fresh(cl.pixels) && cl.pixels.Length == width * height * (bpp / 8)
    {
      out := [];
      if cl.handshaking || cl.connected {
        return false, out;
      }
      if width > fb.width || width == 0 || height > fb.height || height == 0 || bpp > fb.bpp || bpp < 8 {
        return false, [H.Refusal(false)];
      }
      cl.handshaking := true;
      cl.bpp, cl.width, cl.height := bpp, width, height;
      cl.pixels := null;
      if env.memfd == -1 {
        return false, [H.Refusal(false)];
      }
      SizeIsNat(width, height, bpp / 8);
      cl.pixels := new Byte[width * height * (bpp / 8)](_ => 0);
      cl.shmFd := env.memfd;
      if !env.sendOk {
        return false, out;
      }
      out := [H.RecvFd];
      cl.recvFdWait := true;
      ok := true;
    }

    lemma SizeIsNat(a: nat, b: nat, c: nat)
      ensures a * b * c >= 0
    {
    }

    /** `handle_ack`; on ESTABLISHED the client moves from the pending list to a screen. */
    method ServeAck(cl: Client, info: nat, env: H.Env, memoryOk: bool) returns (ok: bool, out: seq<H.Outbound>)
      requires Valid() && cl in Live() && cl.SlotsValid()
      modifies this`pendingClients, this`pending, this`mainScreen, this`screens, this`shown
      modifies pending`next, screens`next, cl`connected, cl`handshaking, cl`recvFdWait
      ensures Valid() && Owned() == old(Owned()) && cl.SlotsValid()
      ensures old(Recorded()) ==> Recorded()
      ensures var r := H.HandleAck(old(Record(cl)), info, env);
              && (ok <==> r.ok && (info == H.ESTABLISHED ==> memoryOk))
              && Record(cl) == (if ok then r.peer else old(Record(cl)))
              && out == (if ok then r.out else [])
              && shown == (if ok && info == H.ESTABLISHED then old(shown) + [cl] else old(shown))
      ensures View() == if ok && info == H.ESTABLISHED
                        then Connecting(old(View()), cl.socket) else old(View())
    {
      hide Valid, Owned, Recorded;
      out := [];
      if info == H.ESTABLISHED {
        ok := Establish(cl, memoryOk);
      } else if info == H.SEND_FD {
        ok, out := AnswerSendFd(cl, env);
      } else {
        ok := false;
      }
    }

    /** The SEND_FD case: the descriptor goes out once, when the client has been told to expect it. */
    method SendDescriptor(cl: Client, env: H.Env) returns (ok: bool, out: seq<H.Outbound>)
      requires cl.SlotsValid()
      modifies cl`recvFdWait
      ensures cl.SlotsValid()
      ensures var r := H.HandleAck(old(Record(cl)), H.SEND_FD, env);
              ok == r.ok && Record(cl) == r.peer && out == r.out
    {
      if !cl.recvFdWait || cl.shmFd <= 0 || !env.sendOk {
        return false, [];
      }
      cl.recvFdWait := false;
      return true, [H.FdByte];
    }

    /** Sending the descriptor leaves the registry alone. */
    method AnswerSendFd(cl: Client, env: H.Env) returns (ok: bool, out: seq<H.Outbound>)
      requires Valid() && cl.SlotsValid()
      modifies cl`recvFdWait
      ensures Valid() && Owned() == old(Owned()) && cl.SlotsValid()
      ensures old(Recorded()) ==> Recorded()
      ensures var r := H.HandleAck(old(Record(cl)), H.SEND_FD, env);
              ok == r.ok && Record(cl) == r.peer && out == r.out
    {
      hide Lists, SyncSlots, FreeSlots, SyncMembers, SlotsKept;
      ok, out := SendDescriptor(cl, env);
      assert Handlers();
    }

    /** The ESTABLISHED case, `client_handshake`. */
    method Establish(cl: Client, memoryOk: bool) returns (ok: bool)
      requires Valid() && cl in Live() && cl.SlotsValid()
      modifies this`pendingClients, this`pending, this`mainScreen, this`screens, this`shown
      modifies pending`next, screens`next, cl`connected, cl`handshaking
      ensures Valid() && Owned() == old(Owned()) && cl.SlotsValid()
      ensures old(Recorded()) ==> Recorded()
      ensures var r := H.HandleAck(old(Record(cl)), H.ESTABLISHED, H.Env(0, true));
              && (ok <==> r.ok && memoryOk)
              && Record(cl) == (if ok then r.peer else old(Record(cl)))
              && shown == (if ok then old(shown) + [cl] else old(shown))
      ensures freed == old(freed)
      ensures View() == if ok then Connecting(old(View()), cl.socket) else old(View())
    {
      if !cl.handshaking {
        return false;
      }
      OnPending(cl);
      hide Valid, Owned, Recorded, View, Connecting;
      ok := PromoteRecord(cl, memoryOk);
    }

    method PromoteRecord(cl: Client, memoryOk: bool) returns (ok: bool)
      requires Valid() && cl in pending && cl in Owned() && cl.SlotsValid()
      modifies this`pendingClients, this`pending, this`mainScreen, this`screens, this`shown
      modifies pending`next, screens`next, cl`connected, cl`handshaking
      ensures Valid() && Owned() == old(Owned()) && cl.SlotsValid()
      ensures old(Recorded()) ==> Recorded()
      ensures ok <==> memoryOk
      ensures Record(cl) == if ok then old(Record(cl)).(connected := true, handshaking := false) else old(Record(cl))
      ensures shown == if ok then old(shown) + [cl] else old(shown)
      ensures freed == old(freed)
      ensures View() == if ok then Connecting(old(View()), cl.socket) else old(View())
    {
      hide Valid, Owned, Record, Recorded, View, Connecting;
      ok := PromoteViewed(cl, memoryOk);
      OnlyHandshake(cl);
    }

    method PromoteViewed(cl: Client, memoryOk: bool) returns (ok: bool)
      requires Valid() && cl in pending && cl in Owned()
      modifies this`pendingClients, this`pending, this`mainScreen, this`screens, this`shown
      modifies pending`next, screens`next, cl`connected, cl`handshaking
      ensures Valid() && Owned() == old(Owned()) && (old(Recorded()) ==> Recorded())
      ensures ok <==> memoryOk
      ensures if ok then cl.connected && !cl.handshaking
              else cl.connected == old(cl.connected) && cl.handshaking == old(cl.handshaking)
      ensures shown == if ok then old(shown) + [cl] else old(shown)
      ensures View() == if ok then Connecting(old(View()), cl.socket) else old(View())
    {
      SocketsDiffer();
      hide Valid, Owned, Recorded, Live;
      ghost var i;
      ok, i := Promote(cl, memoryOk);
      PromotedView(old(pending), old(shown), cl, i, ok);
    }

    lemma PromotedView(pending': seq<Client>, shown': seq<Client>, cl: Client, i: nat, ok: bool)
      requires Distinct(SocketsOf(pending'))
      requires if ok then i < |pending'| && pending'[i] == cl && pending == CutOut(pending', i) && shown == shown' + [cl]
               else pending == pending' && shown == shown'
      ensures var s := Sockets(SocketsOf(pending'), SocketsOf(shown'), SocketsOf(freed));
              View() == if ok then Connecting(s, cl.socket) else s
    {
      if ok {
        CutSockets(pending', i);
        assert SocketsOf(shown' + [cl]) == SocketsOf(shown') + [cl.socket];
      }
    }

    /** A record of which only two flags changed. */
    twostate lemma OnlyHandshake(cl: Client)
      requires old(cl.SlotsValid()) && cl.SlotsValid() && cl.Slots() == old(cl.Slots())
      requires cl.recvFdWait == old(cl.recvFdWait) && cl.width == old(cl.width) && cl.height == old(cl.height)
      requires cl.bpp == old(cl.bpp) && cl.shmFd == old(cl.shmFd) && cl.pixels == old(cl.pixels)
      requires cl.syncFlags == old(cl.syncFlags)
      ensures Record(cl) == old(Record(cl)).(connected := cl.connected, handshaking := cl.handshaking)
      ensures old(Record(cl)).handshaking == old(cl.handshaking) && old(Record(cl)).connected == old(cl.connected)
    {
    }

    lemma OnPending(cl: Client)
      requires Valid() && cl in Live() && cl.handshaking
      ensures cl in pending && cl in Owned()
    {
    }

    /** `spr16_server_register_sprite` in the callback: only a pending client's handshake changes. */
    method ServeRegister(cl: Client, width: nat, height: nat, bpp: nat, env: H.Env) returns (ok: bool)
      requires Valid() && cl in Live() && cl.SlotsValid()
      modifies cl`handshaking, cl`width, cl`height, cl`bpp, cl`pixels, cl`shmFd, cl`recvFdWait
      ensures Valid() && (old(Recorded()) ==> Recorded())
      ensures cl.SlotsValid() && var r := H.HandleRegister(old(Record(cl)), fb, width, height, bpp, env);
              Record(cl) == r.peer && ok == r.ok
    {
      PendingOrShaken(cl);
      hide Lists, Tables, H.HandleRegister, Record, Recorded, Live, Owned;
      ok := RegisterTabled(cl, width, height, bpp, env);
    }

    method RegisterTabled(cl: Client, width: nat, height: nat, bpp: nat, env: H.Env) returns (ok: bool)
      requires Lists() && (cl in shown ==> cl.connected) && cl.SlotsValid()
      modifies cl`handshaking, cl`width, cl`height, cl`bpp, cl`pixels, cl`shmFd, cl`recvFdWait
      ensures Lists() && cl.SlotsValid() && (old(Tables()) ==> Tables()) && (old(Recorded()) ==> Recorded())
      ensures var r := H.HandleRegister(old(Record(cl)), fb, width, height, bpp, env);
              Record(cl) == r.peer && ok == r.ok
    {
      hide Lists, Watched, SyncSlots, FreeSlots, SyncMembers, SlotsKept, H.HandleRegister, Record, Recorded;
      ok := RegisterListed(cl, width, height, bpp, env);
    }

    method RegisterListed(cl: Client, width: nat, height: nat, bpp: nat, env: H.Env) returns (ok: bool)
      requires Lists() && (cl in shown ==> cl.connected) && cl.SlotsValid()
      modifies cl`handshaking, cl`width, cl`height, cl`bpp, cl`pixels, cl`shmFd, cl`recvFdWait
      ensures Lists() && cl.SlotsValid()
      ensures var r := H.HandleRegister(old(Record(cl)), fb, width, height, bpp, env);
              Record(cl) == r.peer && ok == r.ok
    {
      hide Chains, Partitioned, H.HandleRegister, Record;
      ok := RegisterOnce(cl, width, height, bpp, env);
    }

    method RegisterOnce(cl: Client, width: nat, height: nat, bpp: nat, env: H.Env) returns (ok: bool)
      requires cl.SlotsValid()
      modifies cl`handshaking, cl`width, cl`height, cl`bpp, cl`pixels, cl`shmFd, cl`recvFdWait
      ensures cl.SlotsValid() && (old(cl.connected) ==> cl.handshaking == old(cl.handshaking))
      ensures var r := H.HandleRegister(old(Record(cl)), fb, width, height, bpp, env);
              Record(cl) == r.peer && ok == r.ok
    {
      hide H.HandleRegister;
      var out;
      ok, out := RegisterSprite(cl, width, height, bpp, env);
      if old(cl.connected) {
        OnceConnected(old(Record(cl)), fb, width, height, bpp, env);
      }
    }

    lemma PendingOrShaken(cl: Client)
      requires Valid() && cl in Live()
      ensures cl in shown ==> cl.connected && !cl.handshaking
    {
    }

    /** `spr16_server_sync` in the callback. */
    method ServeSync(cl: Client, flags: SyncFlags, d: B.Region) returns (ok: bool)
      requires Valid() && cl in Live() && cl.SlotsValid()
      modifies cl`dmgCount, cl.dmg, cl`syncFlags, cl`syncing, this`sync, syncClients
      ensures Valid() && (old(Recorded()) ==> Recorded())
      ensures cl.SlotsValid() && var r := H.HandleSync(old(Record(cl)), fb, d, flags);
              && Record(cl) == r.peer
              && (ok <==> r.ok && (r.enlist ==> cl in old(sync) || |old(sync)| < MAX_CLIENTS))
    {
      hide Lists, Watched, SyncSlots, FreeSlots, Record, H.HandleSync, Recorded;
      TablesApart();
      SyncKnown(Owned(), cl);
      ok := ServerSync(cl, flags, d);
      assert Distinct(sync);
    }

    /** `server_sync_fullscreen` after a terminal switch. */
    method ResyncFocus()
      requires Valid()
      modifies this`sync, syncClients
      modifies shown`dmgCount, (set c | c in shown :: c.dmg), shown`syncFlags, shown`syncing
      ensures Valid() && FocusReported() && (old(Recorded()) ==> Recorded())
    {
      OwnsShown();
      hide Lists, Watched, SlotsKept, SyncSlots, FreeSlots, SyncMembers, Members, Reported, Record;
      ghost var owned := Owned();
      TablesApart();
      ShownSlots(owned);
      ResyncLists(owned);
      ShownSlots(owned);
    }

    // -------------------------------------------------------------------------------------
    // Any series of events

    /** The kernel does not hand out a descriptor that is still open: those of removed clients are until
        they are released. */
    method AwaitsRelease(fd: int) returns (open: bool)
      requires FreeSlots()
      ensures open <==> !NoSocket(freed, fd)
    {
      for i := 0 to freeCount
        invariant NoSocket(freed[..i], fd)
      {
        if freeList[i].socket == fd {
          return true;
        }
      }
      open := false;
      assert freed[..freeCount] == freed;
    }

    /** The listener's callback.  A run goes on only when the client is admitted or never listed. */
    method OnAccept(fd: int, k: Kernel) returns (ghost v: Verdict)
      requires Valid() && Recorded()
      modifies this`pendingClients, this`pending, this`cbData, this`records, records`next, this`reclaimed, fdpoll
      ensures Valid() && Recorded() && reclaimed == old(reclaimed)
      ensures v == if old(Begins(fd, k) && Completes(fd, k) && NoSocket(freed, fd)) then Admitted else Nothing
      ensures View() == After(old(View()), Connection(fd, k), v)
    {
      hide Valid, Recorded, NoSocket, Begins, Completes;
      v := Nothing;
      var can := CanAccept(fd, k);
      if can {
        ghost var cl;
        var ok;
        ok, cl := Admit(fd, k);
        if ok {
          v := Admitted;
          assert SocketsOf([cl] + old(pending)) == [fd] + SocketsOf(old(pending));
        }
      }
    }

    /** The kernel can hand out the descriptor, and nothing will fail after the client is listed. */
    method CanAccept(fd: int, k: Kernel) returns (can: bool)
      requires Valid()
      ensures can <==> NoSocket(freed, fd) && (Begins(fd, k) ==> Completes(fd, k))
    {
      hide Partitioned, Connected, NoSocket, SyncSlots, FreeSlots, SyncMembers, SlotsKept;
      hide PendingLinked, ScreensLinked, ScreensHold;
      var open := AwaitsRelease(fd);
      var node := fdpoll.FindNode(fd);
      var known := GetClient(fd);
      var room := fd >= 0 && fdpoll.count < P.MAX_HANDLERS && fdpoll.count < fdpoll.max && node == null;
      can := !open && (known != null || !k.memoryOk || !k.sendOk || (k.recordOk && k.pollOk && room));
    }

    /** What the callback of a client is given: a message, or nothing when the connection hangs up. */
    method Handled(cl: Client, m: Option<H.Inbound>, env: H.Env, memoryOk: bool) returns (ok: bool)
      requires Valid() && Recorded() && cl in Live() && cl.SlotsValid() && (cl.syncing <==> cl in sync)
      modifies this`pendingClients, this`pending, this`mainScreen, this`screens, this`shown, pending`next, screens`next
      modifies cl, cl.dmg, this`sync, syncClients
      ensures Valid() && Recorded() && cl in Live()
      ensures ok <==> Welcome(old(Record(cl)), fb, m, env, memoryOk, old(cl in sync || |sync| < MAX_CLIENTS))
      ensures View() == if ok && m == Some(H.Ack(H.ESTABLISHED))
                        then Connecting(old(View()), cl.socket) else old(View())
    {
      hide Valid, Live, Recorded, Record, View, Connecting, H.HandleRegister, H.HandleAck, H.HandleSync;
      ok := false;
      if m.Some? {
        match m.value
        case Register(width, height, bpp) => {
          ok := ServeRegister(cl, width, height, bpp, env);
          NeverEnlists(old(Record(cl)), fb, m.value, env);
        }
        case Ack(info) => {
          var out;
          ok, out := ServeAck(cl, info, env, memoryOk);
          NeverEnlists(old(Record(cl)), fb, m.value, env);
        }
        case Sync(d, flags) => ok := ServeSync(cl, flags, d);
        case _ => ok := m.value.ServInfoRequest? && env.sendOk;
      }
      SameLive();
    }

    /** The live clients are the recorded ones. */
    twostate lemma SameLive()
      requires old(Recorded()) && Recorded() && records == old(records)
      ensures Live() == old(Live())
    {
      hide RecordsLinked, Live;
    }

    /** `client_callback`: a message that is refused, or a hang-up, ends the client.  Any object may change;
        the frame is not what is stated here. */
    method OnReadable(fd: int, m: Option<H.Inbound>, env: H.Env, memoryOk: bool) returns (ghost v: Verdict, ghost cl: Client?)
      requires Valid() && Recorded()
      modifies set o: object {:trigger allocated(o)} | allocated(o)
      ensures Valid() && Recorded() && reclaimed == old(reclaimed)
      ensures View() == After(old(View()), Readable(fd, m, env, memoryOk), v)
      ensures cl == null <==> old((NoSocket(pending, fd) && NoSocket(shown, fd)) || freeCount >= P.MAX_HANDLERS)
      ensures cl == null ==> v == Nothing
      ensures cl != null ==>
                && old(allocated(cl)) && cl.socket == fd && old(cl in Live() && cl.SlotsValid())
                && v == if !Welcome(old(Record(cl)), fb, m, env, memoryOk, old(cl in sync || |sync| < MAX_CLIENTS)) then Removed
                        else if m == Some(H.Ack(H.ESTABLISHED)) then Promoted
                        else Nothing
    {
      hide Valid, Recorded, Record, Welcome, View, Connecting, Leaving, NoSocket;
      v, cl := Nothing, null;
      var c := Known(fd);
      if c != null && freeCount < P.MAX_HANDLERS {
        cl := c;
        var ok := Handled(c, m, env, memoryOk);
        if !ok {
          v := Removed;
          Dismiss(c);
        } else if m == Some(H.Ack(H.ESTABLISHED)) {
          v := Promoted;
        }
      }
    }

    /** The client with an open connection on `fd`. */
    method Known(fd: int) returns (cl: Client?)
      requires Valid()
      ensures cl == null <==> NoSocket(pending, fd) && NoSocket(shown, fd)
      ensures cl != null ==> cl in Live() && cl.SlotsValid() && cl.socket == fd && (cl.syncing <==> cl in sync)
    {
      OwnsShown();
      hide Partitioned, Connected, Watched, SyncSlots, FreeSlots, SyncMembers, PendingLinked, ScreensLinked, ScreensHold;
      cl := GetClient(fd);
      if cl != null {
        assert cl in Live();
        SyncKnown(Owned(), cl);
      }
    }

    /** One event. */
    method OnEvent(e: Event) returns (ghost v: Verdict)
      requires Valid() && Recorded()
      modifies set o: object {:trigger allocated(o)} | allocated(o)
      ensures Valid() && Recorded() && old(reclaimed) <= reclaimed
      ensures View() == After(old(View()), e, v) && (e.RoundOver? ==> sync == [] && freed == [])
      ensures v != Nothing ==> e.Connection? || e.Readable?
    {
      hide Valid, Recorded, FocusReported, Connecting, Leaving, NoSocket, Welcome, Begins, Completes;
      v := Nothing;
      match e
      case Connection(fd, k) => v := OnAccept(fd, k);
      case Readable(fd, m, env, memoryOk) => {
        ghost var cl;
        v, cl := OnReadable(fd, m, env, memoryOk);
      }
      case Switching => {
        SwitchScreen();
        TurnSockets(old(shown));
      }
      case Resyncing => ResyncFocus();
      case RoundOver(active) => Update(active);
    }

    /** The server loop, over any series of events in any order: the registry stays consistent, memory once given
        back is never held again, and the lists go through what each event, with its verdict, does to them. */
    method Serve(events: seq<Event>) returns (ghost vs: seq<Verdict>)
      requires Valid() && Recorded()
      modifies set o: object {:trigger allocated(o)} | allocated(o)
      ensures Valid() && Recorded() && old(reclaimed) <= reclaimed && NothingDangles()
      ensures |vs| == |events| && View() == AfterAll(old(View()), events, vs)
      ensures events != [] && events[|events| - 1].RoundOver? ==> sync == [] && freed == []
    {
      hide Valid, Recorded, NothingDangles, After;
      vs := [];
      for i := 0 to |events|
        invariant Valid() && Recorded() && old(reclaimed) <= reclaimed
        invariant |vs| == i && View() == AfterAll(old(View()), events[..i], vs)
        invariant i > 0 && events[i - 1].RoundOver? ==> sync == [] && freed == []
      {
        ghost var v := OnEvent(events[i]);
        assert events[..i + 1][..i] == events[..i] && (vs + [v])[..i] == vs;
        vs := vs + [v];
      }
      assert events[..|events|] == events;
      NoneDangle();
    }

    /** No list, table or callback record mentions a client whose memory was given back. */
    ghost predicate NothingDangles()
      reads this
    {
      && (forall c :: c in pending || c in shown || c in freed || c in sync ==> c !in reclaimed)
      && (forall r :: r in records ==> r.cl !in reclaimed && r.cl !in freed)
    }

    lemma NoneDangle()
      requires Valid() && Recorded()
      ensures NothingDangles()
    {
      Apart(pending, shown, freed, reclaimed);
      SyncHeld();
      RecordsHeld();
      hide Lists, Tables, RecordsLinked;
    }

    lemma SyncHeld()
      requires SyncMembers(Owned())
      ensures forall c :: c in sync ==> c in pending || c in shown || c in freed
    {
      assert forall c :: c in sync ==> c in Members(sync);
    }

    lemma RecordsHeld()
      requires Recorded()
      ensures forall r :: r in records ==> r.cl in pending || r.cl in shown
    {
      hide RecordsLinked;
      forall r | r in records
        ensures r.cl in Live()
      {
        var k :| 0 <= k < |records| && records[k] == r;
        assert RecordClients(records)[k] == r.cl;
      }
    }
  }
}
