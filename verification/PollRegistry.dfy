/** platform/fdpoll-handler.c: the registry of polled descriptors, a linked list with a counter that
    is decremented before a removal looks for its node. */
module PollRegistry {
  import opened Common
  import opened Lists

  const MAX_HANDLERS := 2048

  // ---------------------------------------------------------------------------------------
  // Specification: the descriptors in list order, and the counter

  datatype State = State(fds: seq<int>, count: nat)

  predicate CanAdd(s: State, max: nat, fd: int) {
    s.count < MAX_HANDLERS && s.count < max && fd >= 0 && fd !in s.fds
  }

  datatype Op = Add(fd: int, kernelOk: bool) | Remove(fd: int)

  function Apply(s: State, max: nat, op: Op): State {
    match op
    case Add(fd, kernelOk) =>
      if CanAdd(s, max, fd) && kernelOk then State([fd] + s.fds, s.count + 1) else s
    case Remove(fd) =>
      if s.count == 0 then s else State(Without(s.fds, fd), s.count - 1)
  }

  function Run(max: nat, ops: seq<Op>): State {
    if ops == [] then State([], 0) else Apply(Run(max, ops[..|ops| - 1]), max, ops[|ops| - 1])
  }

  /** Removals that named a descriptor not in the list, and were counted all the same. */
  function Misses(max: nat, ops: seq<Op>): nat {
    if ops == [] then 0
    else
      var s, op := Run(max, ops[..|ops| - 1]), ops[|ops| - 1];
      Misses(max, ops[..|ops| - 1]) + if op.Remove? && s.count > 0 && op.fd !in s.fds then 1 else 0
  }

  /** The registration of the descriptors `0..n`, in this order. */
  function Adds(n: nat): seq<Op> {
    seq(n, i => Add(i, true))
  }

  function Down(n: nat): seq<int> {
    seq(n, i requires 0 <= i < n => n - 1 - i)
  }

  lemma LastAdd(n: nat)
    requires n > 0
    ensures |Adds(n)| == n && Adds(n)[..n - 1] == Adds(n - 1) && Adds(n)[n - 1] == Add(n - 1, true)
  {
  }

  lemma OneMoreDown(n: nat)
    ensures [n] + Down(n) == Down(n + 1) && n !in Down(n)
  {
  }

  /** There is room for as many descriptors as the limits allow and for no more; the last is first. */
  lemma {:induction false} RoomFor(max: nat, n: nat)
    ensures var held := Min(n, Min(max, 2048)); Run(max, Adds(n)) == State(Down(held), held)
    decreases n
  {
    if n > 0 {
      RoomFor(max, n - 1);
      LastAdd(n);
      var held := Min(n - 1, Min(max, 2048));
      OneMoreDown(held);
      hide Adds, Down;
    }
  }

  /** Over every run the registered descriptors are distinct and non-negative, and the counter is
      short of the list by exactly the number of mistaken removals. */
  lemma {:induction false} CounterLag(max: nat, ops: seq<Op>)
    ensures var s := Run(max, ops);
            && Distinct(s.fds)
            && (forall i :: 0 <= i < |s.fds| ==> s.fds[i] >= 0)
            && s.count + Misses(max, ops) == |s.fds|
  {
    if ops != [] {
      var s, op := Run(max, ops[..|ops| - 1]), ops[|ops| - 1];
      CounterLag(max, ops[..|ops| - 1]);
      match op
      case Add(fd, kernelOk) =>
      case Remove(fd) =>
        WithoutFacts(s.fds, fd);
        forall i | 0 <= i < |Without(s.fds, fd)|
          ensures Without(s.fds, fd)[i] >= 0
        {
          assert Without(s.fds, fd)[i] in Without(s.fds, fd);
        }
    }
  }

  /** Consequence of counting before looking: after one mistaken removal a registered descriptor
      can no longer be removed. */
  lemma LastHandlerStuck(fd: int, other: int)
    requires fd >= 0 && other != fd
    ensures Run(1, [Add(fd, true), Remove(other), Remove(fd)]) == State([fd], 0)
  {
    var a, b := [Add(fd, true)], [Add(fd, true), Remove(other)];
    assert a[..0] == [] && b[..1] == a && [Add(fd, true), Remove(other), Remove(fd)][..2] == b;
    assert Run(1, a) == State([fd], 1);
    WithoutAbsent([fd], other);
    assert Run(1, b) == State([fd], 0);
  }

  // ---------------------------------------------------------------------------------------
  // The linked list

  class Node {
    var next: Node?
    const fd: int

    constructor (fd: int, next: Node?)
      ensures this.fd == fd && this.next == next
    {
      this.fd, this.next := fd, next;
    }
  }

  ghost function Fds(nodes: seq<Node>): (r: seq<int>)
    ensures |r| == |nodes|
  {
    seq(|nodes|, i requires 0 <= i < |nodes| => nodes[i].fd)
  }

  class Handler {
    var list: Node?
    var count: nat
    const max: nat
    ghost var nodes: seq<Node>

    constructor (max: nat)
      ensures this.max == max && Valid() && View() == State([], 0) && nodes == []
    {
      this.max := max;
      list, count, nodes := null, 0, [];
    }

    ghost predicate Valid()
      reads this`list, this`nodes, nodes
    {
      Linked() && Distinct(Fds(nodes))
    }

    /** The pointers spell `nodes`. */
    ghost predicate Linked()
      reads this`list, this`nodes, nodes
    {
      && list == NodeAt(0)
      && forall i :: 0 <= i < |nodes| ==> nodes[i].next == NodeAt(i + 1)
    }

    ghost function NodeAt(i: nat): Node?
      reads this`nodes
    {
      if i < |nodes| then nodes[i] else null
    }

    ghost function View(): State
      reads this
    {
      State(Fds(nodes), count)
    }

    method FindNode(fd: int) returns (node: Node?)
      requires Valid()
      ensures node == null <==> fd !in Fds(nodes)
      ensures node != null ==> node in nodes && node.fd == fd
    {
      node := list;
      ghost var i := 0;
      while node != null
        invariant i <= |nodes| && node == NodeAt(i)
        invariant forall k :: 0 <= k < i ==> Fds(nodes)[k] != fd
        decreases |nodes| - i
      {
        if node.fd == fd {
          assert Fds(nodes)[i] == fd;
          break;
        }
        node := node.next;
        i := i + 1;
      }
    }

    /** `kernelOk` stands for the allocation and the epoll and fcntl calls. */
    method Add(fd: int, kernelOk: bool) returns (ok: bool)
      requires Valid()
      modifies this
      ensures Valid()
      ensures View() == Apply(old(View()), max, Op.Add(fd, kernelOk))
      ensures ok <==> CanAdd(old(View()), max, fd) && kernelOk
      ensures forall n :: n in old(nodes) ==> n in nodes
      ensures if ok then nodes != [] && fresh(nodes[0]) && nodes[1..] == old(nodes) else nodes == old(nodes)
    {
      if count >= MAX_HANDLERS || count >= max || fd < 0 {
        return false;
      }
      var found := FindNode(fd);
      if found != null {
        return false;
      }
      if !kernelOk {
        return false;
      }
      PushNode(fd);
      ok := true;
    }

    /** The new node goes to the head of the list. */
    method PushNode(fd: int)
      requires Valid() && fd !in Fds(nodes)
      modifies this
      ensures Valid() && count == old(count) + 1 && Fds(nodes) == [fd] + old(Fds(nodes))
      ensures nodes != [] && fresh(nodes[0]) && nodes[1..] == old(nodes)
    {
      hide Fds, Distinct;
      var node := new Node(fd, list);
      list := node;
      nodes := [node] + nodes;
      count := count + 1;
      assert Linked();
      FdsPrepend(node, old(nodes));
    }

    /** `kernelOk` is the answer of the final epoll call. */
    method Remove(fd: int, kernelOk: bool) returns (ok: bool)
      requires Valid()
      modifies this, nodes
      ensures Valid()
      ensures View() == Apply(old(View()), max, Op.Remove(fd))
      ensures ok <==> old(count) > 0 && fd in old(Fds(nodes)) && kernelOk
      ensures forall n :: n in nodes ==> n in old(nodes)
    {
      if count == 0 {
        return false;
      }
      hide Valid, Fds, Without;
      count := count - 1;
      var trail, node;
      ghost var i;
      trail, node, i := Seek(fd);
      if node == null {
        WithoutAbsent(Fds(nodes), fd);
        return false;
      }
      TakeOut(trail, node, i);
      ok := kernelOk;
    }

    /** Node `i` goes, and its descriptor with it. */
    method TakeOut(trail: Node?, node: Node, ghost i: nat)
      requires Valid() && i < |nodes| && node == nodes[i]
      requires trail == if i > 0 then nodes[i - 1] else null
      modifies this`list, this`nodes, nodes
      ensures Valid() && Fds(nodes) == Without(old(Fds(nodes)), node.fd)
      ensures forall n :: n in nodes ==> n in old(nodes)
    {
      CutOutFds(nodes, i);
      CutOutNodes(nodes, i);
      hide Linked, Distinct, Fds, Without;
      Unlink(trail, node, i);
    }

    /** The search, keeping the trailing pointer. */
    method Seek(fd: int) returns (trail: Node?, node: Node?, ghost i: nat)
      requires Valid()
      ensures node == null <==> fd !in Fds(nodes)
      ensures node != null ==>
                && i < |nodes| && node == nodes[i] && node.fd == fd
                && trail == if i > 0 then nodes[i - 1] else null
    {
      trail, node, i := null, list, 0;
      while node != null
        invariant i <= |nodes| && node == NodeAt(i)
        invariant trail == if i > 0 then nodes[i - 1] else null
        invariant forall k :: 0 <= k < i ==> Fds(nodes)[k] != fd
        decreases |nodes| - i
      {
        if node.fd == fd {
          assert Fds(nodes)[i] == fd;
          return;
        }
        trail := node;
        node := node.next;
        i := i + 1;
      }
    }

    /** `*trail = node->next`. */
    method Unlink(trail: Node?, node: Node, ghost i: nat)
      requires Linked() && Distinct(nodes) && i < |nodes| && node == nodes[i]
      requires trail == if i > 0 then nodes[i - 1] else null
      modifies this`list, this`nodes, nodes
      ensures Linked() && nodes == CutOut(old(nodes), i)
    {
      if trail == null {
        list := node.next;
      } else {
        trail.next := node.next;
      }
      nodes := CutOut(nodes, i);
    }
  }

  lemma FdsPrepend(node: Node, nodes: seq<Node>)
    requires node.fd !in Fds(nodes) && Distinct(Fds(nodes))
    ensures Fds([node] + nodes) == [node.fd] + Fds(nodes) && Distinct(Fds([node] + nodes))
  {
    assert Fds([node] + nodes) == [node.fd] + Fds(nodes);
  }

  lemma CutOutNodes(nodes: seq<Node>, i: nat)
    requires i < |nodes|
    ensures forall n :: n in CutOut(nodes, i) ==> n in nodes
  {
  }

  /** Taking node `i` out of the list takes its descriptor out of the registry. */
  lemma CutOutFds(nodes: seq<Node>, i: nat)
    requires i < |nodes| && Distinct(Fds(nodes))
    ensures Distinct(nodes)
    ensures Fds(CutOut(nodes, i)) == Without(Fds(nodes), nodes[i].fd) && Distinct(Fds(CutOut(nodes, i)))
  {
    var fds := Fds(nodes);
    assert forall k :: 0 <= k < |nodes| ==> nodes[k].fd == fds[k];
    WithoutAt(fds, i);
    WithoutFacts(fds, fds[i]);
    assert Fds(CutOut(nodes, i)) == CutOut(fds, i);
  }
}
