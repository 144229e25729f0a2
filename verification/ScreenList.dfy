/** screen.c: one screen and the list of its clients. */
module ScreenList {
  import opened Common
  import opened Lists
  import opened ClientRecord

  /** `fd` is the socket of no client in `s`. */
  predicate NoSocket(s: seq<Client>, fd: int) {
    forall k :: 0 <= k < |s| ==> s[k].socket != fd
  }

  /** `struct screen`; the head of `clients` is the focused client. */
  class ScreenNode {
    var next: ScreenNode?
    var clients: Client?
    ghost var members: seq<Client>

    /** calloc and `screen_init`. */
    constructor ()
      ensures next == null && clients == null && members == [] && Linked()
    {
      next, clients, members := null, null, [];
    }

    ghost function NodeAt(i: nat): Client?
      reads this`members
    {
      if i < |members| then members[i] else null
    }

    ghost predicate Linked()
      reads this`clients, this`members, members`next
    {
      && clients == NodeAt(0)
      && forall i :: 0 <= i < |members| ==> members[i].next == NodeAt(i + 1)
    }

    method AddClient(cl: Client) returns (ok: bool)
      requires Linked()
      modifies this`clients, this`members, cl`next
      ensures Linked()
      ensures ok <==> old(members) == []
      ensures members == if ok then [cl] else old(members)
      ensures !ok ==> cl.next == old(cl.next)
    {
      if clients != null {
        return false;
      }
      cl.next := clients;
      clients := cl;
      members := [cl];
      ok := true;
    }

    method FindClient(fd: int) returns (cl: Client?)
      requires Linked()
      ensures cl == null <==> NoSocket(members, fd)
      ensures cl != null ==> cl in members && cl.socket == fd
    {
      cl := clients;
      ghost var i := 0;
      while cl != null
        invariant i <= |members| && cl == NodeAt(i)
        invariant NoSocket(members[..i], fd)
        decreases |members| - i
      {
        if cl.socket == fd {
          return;
        }
        cl := cl.next;
        i := i + 1;
      }
      assert members[..i] == members;
    }

    /** The removed client keeps its own `next`, as in the program. */
    method RemoveClient(fd: int) returns (cl: Client?)
      requires Linked() && Distinct(members)
      modifies this`clients, this`members, Init(members)`next
      ensures Linked()
      ensures cl == null <==> NoSocket(old(members), fd)
      ensures cl == null ==> members == old(members) && forall c :: c in members ==> c.next == old(c.next)
      ensures cl != null ==>
                && cl.socket == fd
                && exists i :: 0 <= i < |old(members)| && old(members)[i] == cl && members == CutOut(old(members), i)
      ensures forall c :: c in old(members) && c == cl ==> c.next == old(c.next)
    {
      var trail;
      ghost var i;
      trail, cl, i := Seek(fd);
      if cl != null {
        hide Linked;
        Unlink(trail, cl, i);
      }
    }

    /** The search, keeping the trailing pointer. */
    method Seek(fd: int) returns (trail: Client?, cl: Client?, ghost i: nat)
      requires Linked()
      ensures cl == null <==> NoSocket(members, fd)
      ensures cl != null ==>
                && i < |members| && cl == members[i] && cl.socket == fd
                && trail == if i > 0 then members[i - 1] else null
    {
      trail, cl, i := null, clients, 0;
      while cl != null
        invariant i <= |members| && cl == NodeAt(i)
        invariant trail == if i > 0 then members[i - 1] else null
        invariant NoSocket(members[..i], fd)
        decreases |members| - i
      {
        if cl.socket == fd {
          return;
        }
        trail := cl;
        cl := cl.next;
        i := i + 1;
      }
      assert members[..i] == members;
    }

    /** `*trail = cl->next`. */
    method Unlink(trail: Client?, cl: Client, ghost i: nat)
      requires Linked() && Distinct(members) && i < |members| && cl == members[i]
      requires trail == if i > 0 then members[i - 1] else null
      modifies this`clients, this`members, Init(members)`next
      ensures Linked() && members == CutOut(old(members), i) && cl.next == old(cl.next)
    {
      if trail == null {
        clients := cl.next;
      } else {
        trail.next := cl.next;
      }
      members := CutOut(members, i);
    }
  }
}
