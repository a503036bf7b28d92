/**
 The AIO handler list (aio.c:22-96) and the dispatch walk of qemu_aio_wait (aio.c:166-196).

 Handlers live in a doubly linked list on a heap of nodes. A callback may register and
 unregister handlers for any descriptor, so it is modelled by the changes it makes. Functions
 are numbered, and number 0 is the null pointer.
 */
module Aio {
  import opened Common

  datatype Handler = Handler(read: nat, write: nat, flush: nat, arg: nat)

  datatype Ptr = Null | At(id: nat)

  /** What le_prev points to: the list head or some node's le_next. */
  datatype Place = Head | NextOf(id: nat)

  datatype Node = Node(fd: int, h: Handler, deleted: bool, next: Ptr, prev: Place)

  /** One call of qemu_aio_set_fd_handler. */
  datatype Change = Change(fd: int, h: Handler)

  predicate Removes(c: Change) { c.h.read == 0 && c.h.write == 0 }

  // ----- the meaning: the latest handler of each descriptor

  function Apply(m: map<int, Handler>, c: Change): map<int, Handler> {
    if Removes(c) then m - {c.fd} else m[c.fd := c.h]
  }

  function ApplyAll(m: map<int, Handler>, cs: seq<Change>): map<int, Handler> {
    if cs == [] then m else Apply(ApplyAll(m, cs[..|cs| - 1]), cs[|cs| - 1])
  }

  lemma {:induction false} ApplyAllConcat(m: map<int, Handler>, a: seq<Change>, b: seq<Change>)
    ensures ApplyAll(m, a + b) == ApplyAll(ApplyAll(m, a), b)
    decreases |b|
  {
    if b == [] {
      assert a + b == a;
    } else {
      assert (a + b)[..|a + b| - 1] == a + b[..|b| - 1];
      ApplyAllConcat(m, a, b[..|b| - 1]);
    }
  }

  lemma {:induction false} ApplyThrice(m: map<int, Handler>, a: seq<Change>, b: seq<Change>, c: seq<Change>)
    ensures ApplyAll(m, a + (b + c)) == ApplyAll(ApplyAll(ApplyAll(m, a), b), c) && a + b + c == a + (b + c)
  {
    hide ApplyAll;
    assert a + b + c == a + (b + c);
    ApplyAllConcat(m, a, b + c);
    ApplyAllConcat(ApplyAll(m, a), b, c);
  }

  /** Some change unregisters the descriptor. */
  ghost predicate Unregistered(cs: seq<Change>, fd: int) {
    exists i :: 0 <= i < |cs| && cs[i].fd == fd && Removes(cs[i])
  }

  lemma {:induction false} UnregisteredConcat(a: seq<Change>, b: seq<Change>, fd: int)
    ensures Unregistered(a + b, fd) <==> Unregistered(a, fd) || Unregistered(b, fd)
  {
    if Unregistered(a, fd) {
      var i :| 0 <= i < |a| && a[i].fd == fd && Removes(a[i]);
      assert (a + b)[i] == a[i];
    }
    if Unregistered(b, fd) {
      var i :| 0 <= i < |b| && b[i].fd == fd && Removes(b[i]);
      assert (a + b)[|a| + i] == b[i];
    }
  }

  // ----- the list

  function PtrAt(list: seq<nat>, i: nat): Ptr
    requires i <= |list|
  {
    if i < |list| then At(list[i]) else Null
  }

  function PlaceAt(list: seq<nat>, i: nat): Place
    requires i <= |list|
  {
    if i == 0 then Head else NextOf(list[i - 1])
  }

  ghost predicate Holds(nodes: map<nat, Node>, list: seq<nat>) {
    forall id :: id in nodes <==> id in list
  }

  ghost predicate LinkedAt(nodes: map<nat, Node>, list: seq<nat>, i: nat)
    requires i < |list|
  {
    && list[i] in nodes
    && nodes[list[i]].next == PtrAt(list, i + 1) && nodes[list[i]].prev == PlaceAt(list, i)
  }

  /** The links spell out the list in both directions, and the list holds every node. */
  ghost predicate Linked(nodes: map<nat, Node>, first: Ptr, list: seq<nat>) {
    && NoDup(list) && first == PtrAt(list, 0) && Holds(nodes, list)
    && forall i :: 0 <= i < |list| ==> LinkedAt(nodes, list, i)
  }

  ghost predicate Live(nodes: map<nat, Node>, id: nat) { id in nodes && !nodes[id].deleted }

  ghost predicate Registered(nodes: map<nat, Node>, fd: int) {
    exists id :: Live(nodes, id) && nodes[id].fd == fd
  }

  ghost predicate OnePerFd(nodes: map<nat, Node>) {
    forall a, b :: Live(nodes, a) && Live(nodes, b) && nodes[a].fd == nodes[b].fd ==> a == b
  }

  ghost predicate Latest(nodes: map<nat, Node>, m: map<int, Handler>) {
    forall id :: Live(nodes, id) ==> nodes[id].fd in m && m[nodes[id].fd] == nodes[id].h
  }

  ghost predicate Covers(nodes: map<nat, Node>, m: map<int, Handler>) {
    forall fd :: fd in m ==> Registered(nodes, fd)
  }

  /** The live nodes are the map: one for each registered descriptor, with its latest handler. */
  ghost predicate Refines(nodes: map<nat, Node>, m: map<int, Handler>) {
    OnePerFd(nodes) && Latest(nodes, m) && Covers(nodes, m)
  }

  /** QLIST_INSERT_HEAD. */
  function Inserted(nodes: map<nat, Node>, first: Ptr, id: nat, n: Node): map<nat, Node>
    requires first.At? ==> first.id in nodes
  {
    var linked := if first.At? then nodes[first.id := nodes[first.id].(prev := NextOf(id))] else nodes;
    linked[id := n.(next := first, prev := Head)]
  }

  lemma {:induction false} InsertLinked(nodes: map<nat, Node>, first: Ptr, list: seq<nat>, id: nat, n: Node)
    requires Linked(nodes, first, list) && id !in nodes
    ensures first.At? ==> first.id in nodes
    ensures Linked(Inserted(nodes, first, id, n), At(id), [id] + list)
  {
    if |list| > 0 { assert LinkedAt(nodes, list, 0); }
    var (nodes', list') := (Inserted(nodes, first, id, n), [id] + list);
    assert id !in list;
    forall i | 0 <= i < |list'| ensures LinkedAt(nodes', list', i) {
      if i > 0 { assert list'[i] == list[i - 1] && LinkedAt(nodes, list, i - 1); }
    }
  }

  /** QLIST_REMOVE: the successor's le_prev and the place le_prev names skip the node. */
  function Unlinked(nodes: map<nat, Node>, id: nat): map<nat, Node>
    requires id in nodes
  {
    var n := nodes[id];
    var back := if n.next.At? && n.next.id in nodes
                then nodes[n.next.id := nodes[n.next.id].(prev := n.prev)] else nodes;
    var both := if n.prev.NextOf? && n.prev.id in back
                then back[n.prev.id := back[n.prev.id].(next := n.next)] else back;
    both - {id}
  }

  function NewFirst(first: Ptr, n: Node): Ptr { if n.prev == Head then n.next else first }

  /** What unlinking position k does to the links at position o. */
  lemma {:induction false} UnlinkAt(nodes: map<nat, Node>, first: Ptr, list: seq<nat>, k: nat, o: nat)
    requires Linked(nodes, first, list) && k < |list| && o < |list| && o != k
    ensures list[k] in nodes && list[o] in Unlinked(nodes, list[k])
    ensures Unlinked(nodes, list[k])[list[o]].next == if o + 1 == k then PtrAt(list, k + 1) else PtrAt(list, o + 1)
    ensures Unlinked(nodes, list[k])[list[o]].prev == if o == k + 1 then PlaceAt(list, k) else PlaceAt(list, o)
  {
    assert LinkedAt(nodes, list, k) && LinkedAt(nodes, list, o);
    if k > 0 { assert LinkedAt(nodes, list, k - 1); }
    if k + 1 < |list| { assert LinkedAt(nodes, list, k + 1); }
  }

  lemma {:induction false} CutAt(a: seq<nat>, id: nat, b: seq<nat>, i: nat)
    requires i <= |a + b|
    ensures PtrAt(a + b, i) == PtrAt(a + [id] + b, if i < |a| then i else i + 1)
    ensures PlaceAt(a + b, i) == PlaceAt(a + [id] + b, if i <= |a| then i else i + 1)
  {}

  lemma {:induction false} CutNoDup(a: seq<nat>, id: nat, b: seq<nat>)
    requires NoDup(a + [id] + b)
    ensures NoDup(a + b)
  {
    var (list, list') := (a + [id] + b, a + b);
    assert forall i :: 0 <= i < |list'| ==> list'[i] == list[if i < |a| then i else i + 1];
  }

  lemma {:induction false} UnlinkPosition(nodes: map<nat, Node>, first: Ptr, a: seq<nat>, id: nat, b: seq<nat>, i: nat)
    requires Linked(nodes, first, a + [id] + b) && i < |a + b| && id in nodes
    ensures LinkedAt(Unlinked(nodes, id), a + b, i)
  {
    var o := if i < |a| then i else i + 1;
    assert (a + b)[i] == (a + [id] + b)[o] && (a + [id] + b)[|a|] == id;
    UnlinkAt(nodes, first, a + [id] + b, |a|, o);
    CutAt(a, id, b, i);
    CutAt(a, id, b, i + 1);
    hide Unlinked, PtrAt, PlaceAt, Linked;
  }

  lemma {:induction false} UnlinkFirst(nodes: map<nat, Node>, first: Ptr, a: seq<nat>, id: nat, b: seq<nat>)
    requires Linked(nodes, first, a + [id] + b)
    ensures id in nodes && NewFirst(first, nodes[id]) == PtrAt(a + b, 0)
  {
    var list := a + [id] + b;
    assert list[|a|] == id && LinkedAt(nodes, list, |a|);
    CutAt(a, id, b, 0);
  }

  lemma {:induction false} UnlinkLinked(nodes: map<nat, Node>, first: Ptr, a: seq<nat>, id: nat, b: seq<nat>)
    requires Linked(nodes, first, a + [id] + b)
    ensures id in nodes && Linked(Unlinked(nodes, id), NewFirst(first, nodes[id]), a + b)
  {
    UnlinkFirst(nodes, first, a, id, b);
    UnlinkKeys(nodes, a, id, b);
    CutNoDup(a, id, b);
    hide Unlinked, NoDup, PtrAt, PlaceAt, Holds, LinkedAt, NewFirst;
    forall i | 0 <= i < |a + b| ensures LinkedAt(Unlinked(nodes, id), a + b, i) {
      UnlinkPosition(nodes, first, a, id, b, i);
    }
  }

  lemma {:induction false} UnlinkKeys(nodes: map<nat, Node>, a: seq<nat>, id: nat, b: seq<nat>)
    requires NoDup(a + [id] + b) && id in nodes && Holds(nodes, a + [id] + b)
    ensures Holds(Unlinked(nodes, id), a + b)
  {
    var list := a + [id] + b;
    assert forall x :: x in Unlinked(nodes, id) <==> x in nodes && x != id;
    forall i | 0 <= i < |a| ensures a[i] != id { assert list[i] == a[i] && list[|a|] == id; }
    forall i | 0 <= i < |b| ensures b[i] != id { assert list[|a| + 1 + i] == b[i] && list[|a|] == id; }
  }

  /** Unlinking changes nothing but links. */
  lemma {:induction false} UnlinkKeeps(nodes: map<nat, Node>, id: nat)
    requires id in nodes
    ensures forall x :: x in nodes && x != id ==> x in Unlinked(nodes, id) && SameBut(nodes[x], Unlinked(nodes, id)[x])
  {}

  predicate SameBut(n: Node, n': Node) { n'.fd == n.fd && n'.h == n.h && n'.deleted == n.deleted }

  // ----- what the changes do to the meaning

  /** The two heaps hold the same handlers: only links differ. */
  ghost predicate SameHandlers(nodes: map<nat, Node>, nodes': map<nat, Node>) {
    nodes'.Keys == nodes.Keys && forall x :: x in nodes ==> SameBut(nodes[x], nodes'[x])
  }

  lemma {:induction false} RefinesSame(nodes: map<nat, Node>, nodes': map<nat, Node>, m: map<int, Handler>)
    requires Refines(nodes, m) && SameHandlers(nodes, nodes')
    ensures Refines(nodes', m)
  {
    forall fd | fd in m ensures Registered(nodes', fd) {
      var id :| Live(nodes, id) && nodes[id].fd == fd;
      assert Live(nodes', id) && nodes'[id].fd == fd;
    }
  }

  lemma {:induction false} RefinesAdd(nodes: map<nat, Node>, m: map<int, Handler>, id: nat, n: Node)
    requires Refines(nodes, m) && id !in nodes && n.fd !in m && !n.deleted
    ensures Refines(nodes[id := n], m[n.fd := n.h])
  {
    var nodes' := nodes[id := n];
    assert Live(nodes', id);
    forall x | x != id ensures Live(nodes', x) <==> Live(nodes, x) {}
    forall fd | fd in m ensures Registered(nodes', fd) {
      var x :| Live(nodes, x) && nodes[x].fd == fd;
      assert Live(nodes', x) && nodes'[x].fd == fd;
    }
  }

  function Rewritten(nodes: map<nat, Node>, id: nat, n: Node): map<nat, Node> { nodes[id := n] }

  lemma {:induction false} RewrittenLive(nodes: map<nat, Node>, id: nat, n: Node)
    requires Live(nodes, id)
    ensures forall x :: Live(Rewritten(nodes, id, n), x) <==> if x == id then !n.deleted else Live(nodes, x)
    ensures forall x :: Live(Rewritten(nodes, id, n), x) ==>
              Rewritten(nodes, id, n)[x] == if x == id then n else nodes[x]
  {}

  function NewMeaning(m: map<int, Handler>, n: Node): map<int, Handler> {
    if n.deleted then m - {n.fd} else m[n.fd := n.h]
  }

  lemma {:induction false} RewrittenCovers(nodes: map<nat, Node>, m: map<int, Handler>, id: nat, n: Node)
    requires Refines(nodes, m) && Live(nodes, id) && n.fd == nodes[id].fd
    ensures Covers(Rewritten(nodes, id, n), NewMeaning(m, n))
  {
    RewrittenLive(nodes, id, n);
    var nodes' := Rewritten(nodes, id, n);
    hide OnePerFd, Latest;
    forall fd | fd in NewMeaning(m, n) ensures Registered(nodes', fd) {
      if fd == n.fd {
        assert Live(nodes', id) && nodes'[id].fd == fd;
      } else {
        var x :| Live(nodes, x) && nodes[x].fd == fd;
        assert Live(nodes', x) && nodes'[x].fd == fd;
      }
    }
  }

  /** Changing a live node's handler, or marking it deleted, changes the meaning of its descriptor only. */
  lemma {:induction false} RefinesRewrite(nodes: map<nat, Node>, m: map<int, Handler>, id: nat, n: Node)
    requires Refines(nodes, m) && Live(nodes, id) && n.fd == nodes[id].fd
    ensures Refines(Rewritten(nodes, id, n), NewMeaning(m, n))
  {
    RewrittenLive(nodes, id, n);
    RewrittenCovers(nodes, m, id, n);
    hide Rewritten, Covers, Live;
    assert OnePerFd(Rewritten(nodes, id, n));
    assert Latest(Rewritten(nodes, id, n), NewMeaning(m, n));
  }

  lemma {:induction false} RefinesDrop(nodes: map<nat, Node>, m: map<int, Handler>, id: nat)
    requires Refines(nodes, m) && id in nodes && nodes[id].deleted
    ensures Refines(nodes - {id}, m)
  {
    var nodes' := nodes - {id};
    forall x ensures Live(nodes', x) <==> Live(nodes, x) {}
    forall fd | fd in m ensures Registered(nodes', fd) {
      var x :| Live(nodes, x) && nodes[x].fd == fd;
      assert Live(nodes', x) && nodes'[x].fd == fd;
    }
  }

  lemma {:induction false} RefinesUnlink(nodes: map<nat, Node>, m: map<int, Handler>, id: nat)
    requires Refines(nodes, m) && id in nodes && nodes[id].deleted
    ensures Refines(Unlinked(nodes, id), m)
  {
    RefinesDrop(nodes, m, id);
    UnlinkKeeps(nodes, id);
    assert Unlinked(nodes, id).Keys == (nodes - {id}).Keys;
    RefinesSame(nodes - {id}, Unlinked(nodes, id), m);
  }

  lemma {:induction false} InsertSame(nodes: map<nat, Node>, first: Ptr, id: nat, n: Node)
    requires id !in nodes && (first.At? ==> first.id in nodes)
    ensures SameHandlers(nodes[id := n], Inserted(nodes, first, id, n))
  {}

  /** Taking a live node out is marking it and taking the marked node out. */
  lemma {:induction false} UnlinkMarked(nodes: map<nat, Node>, m: map<int, Handler>, id: nat)
    requires Refines(nodes, m) && Live(nodes, id)
    ensures Refines(Unlinked(nodes, id), m - {nodes[id].fd})
  {
    var marked := Rewritten(nodes, id, nodes[id].(deleted := true));
    RefinesRewrite(nodes, m, id, nodes[id].(deleted := true));
    RefinesUnlink(marked, m - {nodes[id].fd}, id);
    UnlinkSame(nodes, marked, id);
    hide Unlinked, Refines;
    RefinesSame(Unlinked(marked, id), Unlinked(nodes, id), m - {nodes[id].fd});
  }

  lemma {:induction false} UnlinkSame(nodes: map<nat, Node>, marked: map<nat, Node>, id: nat)
    requires id in nodes && marked == Rewritten(nodes, id, nodes[id].(deleted := true))
    ensures SameHandlers(Unlinked(marked, id), Unlinked(nodes, id))
  {
    UnlinkKeeps(nodes, id);
    UnlinkKeeps(marked, id);
    assert Unlinked(nodes, id).Keys == nodes.Keys - {id};
    assert Unlinked(marked, id).Keys == nodes.Keys - {id};
  }

  /** Every node of the list is kept, and exactly the ones a change unregisters are marked. */
  ghost predicate Marked(nodes: map<nat, Node>, nodes': map<nat, Node>, cs: seq<Change>) {
    forall id :: id in nodes ==>
      id in nodes' && nodes'[id].fd == nodes[id].fd &&
      (nodes'[id].deleted <==> nodes[id].deleted || Unregistered(cs, nodes[id].fd))
  }

  lemma {:induction false} MarkedTwice(n: map<nat, Node>, n1: map<nat, Node>, n2: map<nat, Node>, a: seq<Change>,
                                       b: seq<Change>)
    requires Marked(n, n1, a) && Marked(n1, n2, b)
    ensures Marked(n, n2, a + b)
  {
    forall id | id in n
      ensures id in n2 && n2[id].fd == n[id].fd && (n2[id].deleted <==> n[id].deleted || Unregistered(a + b, n[id].fd))
    {
      UnregisteredConcat(a, b, n[id].fd);
    }
  }

  lemma {:induction false} RewriteLinked(nodes: map<nat, Node>, first: Ptr, list: seq<nat>, id: nat, n: Node)
    requires Linked(nodes, first, list) && id in nodes && n.next == nodes[id].next && n.prev == nodes[id].prev
    ensures Linked(Rewritten(nodes, id, n), first, list)
  {
    forall i | 0 <= i < |list| ensures LinkedAt(Rewritten(nodes, id, n), list, i) {
      assert LinkedAt(nodes, list, i);
    }
  }

  lemma {:induction false} UnregisteredOne(c: Change, fd: int)
    ensures Unregistered([c], fd) <==> c.fd == fd && Removes(c)
  {
    if c.fd == fd && Removes(c) { assert [c][0] == c; }
  }

  /** Marking the live node of a descriptor is what its removal asks for. */
  lemma {:induction false} MarkedOne(nodes: map<nat, Node>, m: map<int, Handler>, id: nat, c: Change)
    requires Refines(nodes, m) && Live(nodes, id) && nodes[id].fd == c.fd && Removes(c)
    ensures Marked(nodes, Rewritten(nodes, id, nodes[id].(deleted := true)), [c])
  {
    var nodes' := Rewritten(nodes, id, nodes[id].(deleted := true));
    hide Latest, Covers;
    forall x | x in nodes
      ensures nodes'[x].fd == nodes[x].fd && (nodes'[x].deleted <==> nodes[x].deleted || Unregistered([c], nodes[x].fd))
    {
      UnregisteredOne(c, nodes[x].fd);
      if x != id && nodes[x].fd == c.fd { assert !Live(nodes, x); }
    }
  }

  /** A removal that finds no live node marks nothing. */
  lemma {:induction false} MarkedNone(nodes: map<nat, Node>, m: map<int, Handler>, c: Change)
    requires Refines(nodes, m) && c.fd !in m
    ensures Marked(nodes, nodes, [c])
  {
    forall x | x in nodes ensures nodes[x].deleted <==> nodes[x].deleted || Unregistered([c], nodes[x].fd) {
      UnregisteredOne(c, nodes[x].fd);
      if nodes[x].fd == c.fd { assert !Live(nodes, x); }
    }
  }

  /** A registration marks nothing. */
  lemma {:induction false} MarkedKeep(nodes: map<nat, Node>, nodes': map<nat, Node>, c: Change)
    requires !Removes(c)
    requires forall x :: x in nodes ==>
               x in nodes' && nodes'[x].fd == nodes[x].fd && nodes'[x].deleted == nodes[x].deleted
    ensures Marked(nodes, nodes', [c])
  {
    forall x | x in nodes ensures !Unregistered([c], nodes[x].fd) { UnregisteredOne(c, nodes[x].fd); }
  }

  // ----- the walk

  /** One stop of the walk: how many changes had been made when the node was reached, before its write
      callback was considered, and when the walk left it; what was called; and whether it was freed. */
  datatype Visit = Visit(id: nat, reached: nat, middle: nat, left: nat, read: bool, write: bool, freed: bool)

  /** The node has not been unregistered before the first s changes of the walk. */
  ghost predicate StillLive(n: Node, cs: seq<Change>, s: nat)
    requires s <= |cs|
  {
    !n.deleted && !Unregistered(cs[..s], n.fd)
  }

  /** A visit calls the latest handler of a node that is still registered and ready, and nothing else. */
  ghost predicate VisitOk(v: Visit, n: Node, m: map<int, Handler>, cs: seq<Change>, rd: set<int>, wr: set<int>) {
    && v.reached <= v.middle <= v.left <= |cs|
    && (StillLive(n, cs, v.reached) ==> n.fd in ApplyAll(m, cs[..v.reached]))
    && (v.read <==> StillLive(n, cs, v.reached) && n.fd in rd && ApplyAll(m, cs[..v.reached])[n.fd].read != 0)
    && (StillLive(n, cs, v.middle) ==> n.fd in ApplyAll(m, cs[..v.middle]))
    && (v.write <==> StillLive(n, cs, v.middle) && n.fd in wr && ApplyAll(m, cs[..v.middle])[n.fd].write != 0)
    && (v.freed <==> !StillLive(n, cs, v.left))
  }

  lemma {:induction false} VisitStays(v: Visit, n: Node, m: map<int, Handler>, cs: seq<Change>, more: seq<Change>,
                                      rd: set<int>, wr: set<int>)
    requires VisitOk(v, n, m, cs, rd, wr)
    ensures VisitOk(v, n, m, cs + more, rd, wr)
  {
    assert (cs + more)[..v.reached] == cs[..v.reached];
    assert (cs + more)[..v.middle] == cs[..v.middle];
    assert (cs + more)[..v.left] == cs[..v.left];
  }

  /** The nodes the walk left in the list. */
  ghost function Kept(visits: seq<Visit>): seq<nat> {
    if visits == [] then []
    else
      var v := visits[|visits| - 1];
      Kept(visits[..|visits| - 1]) + if v.freed then [] else [v.id]
  }

  /** The nodes ahead of the walk are still there, marked as the changes so far ask for. */
  ghost predicate AheadOk(nodes0: map<nat, Node>, nodes: map<nat, Node>, ahead: seq<nat>, cs: seq<Change>) {
    forall i :: 0 <= i < |ahead| ==>
      ahead[i] in nodes0 && ahead[i] in nodes && nodes[ahead[i]].fd == nodes0[ahead[i]].fd &&
      (nodes[ahead[i]].deleted <==> nodes0[ahead[i]].deleted || Unregistered(cs, nodes0[ahead[i]].fd))
  }

  lemma {:induction false} AheadMarked(nodes0: map<nat, Node>, nodes: map<nat, Node>, nodes': map<nat, Node>,
                                       ahead: seq<nat>, cs: seq<Change>, more: seq<Change>)
    requires AheadOk(nodes0, nodes, ahead, cs) && Marked(nodes, nodes', more)
    ensures AheadOk(nodes0, nodes', ahead, cs + more)
  {
    forall i | 0 <= i < |ahead|
      ensures ahead[i] in nodes' && nodes'[ahead[i]].fd == nodes0[ahead[i]].fd
      ensures nodes'[ahead[i]].deleted <==> nodes0[ahead[i]].deleted || Unregistered(cs + more, nodes0[ahead[i]].fd)
    {
      UnregisteredConcat(cs, more, nodes0[ahead[i]].fd);
    }
  }

  lemma {:induction false} AheadDrop(nodes0: map<nat, Node>, nodes: map<nat, Node>, nodes': map<nat, Node>,
                                     ahead: seq<nat>, cs: seq<Change>)
    requires |ahead| > 0 && AheadOk(nodes0, nodes, ahead, cs)
    requires forall i :: 0 < i < |ahead| ==> ahead[i] != ahead[0]
    requires forall x :: x in nodes && x != ahead[0] ==> x in nodes' && SameBut(nodes[x], nodes'[x])
    ensures AheadOk(nodes0, nodes', ahead[1..], cs)
  {}

  /** The record of a visit that found the node as the changes so far say. */
  lemma {:induction false} VisitRecorded(n: Node, m: map<int, Handler>, cs: seq<Change>, c1: seq<Change>,
                                         c2: seq<Change>, rd: set<int>, wr: set<int>, v: Visit)
    requires v.reached == |cs| && v.middle == |cs + c1| && v.left == |cs + c1 + c2|
    requires var live := !n.deleted && !Unregistered(cs, n.fd);
             var h := ApplyAll(m, cs);
             (live ==> n.fd in h) && (v.read <==> live && n.fd in rd && h[n.fd].read != 0)
    requires var live := !n.deleted && !Unregistered(cs + c1, n.fd);
             var h := ApplyAll(m, cs + c1);
             (live ==> n.fd in h) && (v.write <==> live && n.fd in wr && h[n.fd].write != 0)
    requires v.freed <==> n.deleted || Unregistered(cs + c1 + c2, n.fd)
    ensures VisitOk(v, n, m, cs + c1 + c2, rd, wr)
  {
    var all := cs + c1 + c2;
    assert all[..v.reached] == cs && all[..v.middle] == cs + c1 && all[..v.left] == all;
    hide Unregistered, ApplyAll;
  }

  /** Where a node stands in the list. */
  lemma {:induction false} Split(nodes: map<nat, Node>, first: Ptr, list: seq<nat>, id: nat)
    returns (a: seq<nat>, b: seq<nat>)
    requires Linked(nodes, first, list) && id in nodes
    ensures list == a + [id] + b
  {
    var k :| 0 <= k < |list| && list[k] == id;
    a, b := list[..k], list[k + 1..];
  }

  class Handlers {
    var nodes: map<nat, Node>
    var first: Ptr
    var walking: bool            // walking_handlers
    ghost var list: seq<nat>
    ghost var m: map<int, Handler>

    ghost predicate Valid()
      reads this
    {
      Linked(nodes, first, list) && Refines(nodes, m)
    }

    constructor ()
      ensures Valid() && list == [] && m == map[] && !walking
    {
      nodes, first, walking, list, m := map[], Null, false, [], map[];
    }

    /** find_aio_handler. */
    method Find(fd: int) returns (p: Ptr)
      requires Valid()
      ensures p == Null <==> fd !in m
      ensures p.At? ==> p.id in nodes && Live(nodes, p.id) && nodes[p.id].fd == fd
    {
      p := first;
      ghost var k := 0;
      while p.At?
        invariant 0 <= k <= |list| && p == PtrAt(list, k)
        invariant forall i :: 0 <= i < k ==> list[i] in nodes && !(Live(nodes, list[i]) && nodes[list[i]].fd == fd)
        decreases |list| - k
      {
        assert LinkedAt(nodes, list, k);
        if nodes[p.id].fd == fd && !nodes[p.id].deleted { return; }
        p := nodes[p.id].next;
        k := k + 1;
      }
    }

    /** qemu_aio_set_fd_handler. During a walk no node is freed: the descriptor's live node is marked. */
    method SetFdHandler(fd: int, h: Handler) returns (ghost added: seq<nat>)
      requires Valid()
      modifies this`nodes, this`first, this`list, this`m
      ensures Valid() && m == Apply(old(m), Change(fd, h))
      ensures walking || !Removes(Change(fd, h)) ==>
                Marked(old(nodes), nodes, [Change(fd, h)]) && list == added + old(list)
      ensures !walking ==> forall id :: id in nodes && nodes[id].deleted ==> id in old(nodes) && old(nodes)[id].deleted
    {
      var p := Find(fd);
      added := [];
      ghost var c := Change(fd, h);
      if h.read == 0 && h.write == 0 {
        if p.At? {
          Remove(p.id);
        } else {
          MarkedNone(nodes, m, c);
          assert Apply(m, c) == m;
        }
      } else if p.At? {
        Update(p.id, h);
      } else {
        added := Register(fd, h);
      }
    }

    /** The removal of a live node. */
    method Remove(id: nat)
      requires Valid() && Live(nodes, id)
      modifies this`nodes, this`first, this`list, this`m
      ensures Valid() && m == old(m) - {old(nodes)[id].fd}
      ensures walking ==> list == old(list) && nodes == Rewritten(old(nodes), id, old(nodes)[id].(deleted := true))
      ensures walking ==> forall c :: Removes(c) && c.fd == old(nodes)[id].fd ==> Marked(old(nodes), nodes, [c])
      ensures !walking ==> forall x :: x in nodes && nodes[x].deleted ==> x in old(nodes) && old(nodes)[x].deleted
    {
      hide Refines, Linked;
      if walking {
        var n := nodes[id].(deleted := true);
        forall c | Removes(c) && c.fd == nodes[id].fd ensures Marked(nodes, Rewritten(nodes, id, n), [c]) {
          MarkedOne(nodes, m, id, c);
        }
        RefinesRewrite(nodes, m, id, n);
        RewriteLinked(nodes, first, list, id, n);
        m := m - {nodes[id].fd};
        nodes := Rewritten(nodes, id, n);
      } else {
        ghost var a, b := Split(nodes, first, list, id);
        UnlinkLinked(nodes, first, a, id, b);
        UnlinkMarked(nodes, m, id);
        UnlinkKeeps(nodes, id);
        first := NewFirst(first, nodes[id]);
        m := m - {nodes[id].fd};
        list := a + b;
        nodes := Unlinked(nodes, id);
      }
    }

    method Update(id: nat, h: Handler)
      requires Valid() && Live(nodes, id)
      modifies this`nodes, this`m
      ensures Valid() && m == old(m)[old(nodes)[id].fd := h]
      ensures forall c :: !Removes(c) ==> Marked(old(nodes), nodes, [c])
      ensures forall x :: x in nodes ==> x in old(nodes) && nodes[x].deleted == old(nodes)[x].deleted
    {
      var n := nodes[id].(h := h);
      forall c | !Removes(c) ensures Marked(nodes, Rewritten(nodes, id, n), [c]) {
        MarkedKeep(nodes, Rewritten(nodes, id, n), c);
      }
      hide Refines, Linked, Marked;
      RefinesRewrite(nodes, m, id, n);
      RewriteLinked(nodes, first, list, id, n);
      m := m[nodes[id].fd := h];
      nodes := Rewritten(nodes, id, n);
    }

    /** A new node at the head of the list, at whatever free address the allocator picks. */
    method Register(fd: int, h: Handler) returns (ghost added: seq<nat>)
      requires Valid() && fd !in m
      modifies this`nodes, this`first, this`list, this`m
      ensures Valid() && m == old(m)[fd := h] && list == added + old(list)
      ensures forall c :: !Removes(c) ==> Marked(old(nodes), nodes, [c])
      ensures forall x :: x in nodes && nodes[x].deleted ==> x in old(nodes) && old(nodes)[x].deleted
    {
      ghost var free := Unused(nodes.Keys);
      assert free !in nodes.Keys;
      var id :| id !in nodes;
      var n := Node(fd, h, false, Null, Head);
      InsertLinked(nodes, first, list, id, n);
      InsertSame(nodes, first, id, n);
      ghost var nodes' := Inserted(nodes, first, id, n);
      assert forall x :: x in nodes ==> x in nodes' && SameBut(nodes[x], nodes'[x]);
      forall c | !Removes(c) ensures Marked(nodes, nodes', [c]) { MarkedKeep(nodes, nodes', c); }
      hide Refines, Linked, Marked;
      RefinesAdd(nodes, m, id, n);
      RefinesSame(nodes[id := n], nodes', m[fd := h]);
      added := [id];
      nodes := Inserted(nodes, first, id, n);
      first := At(id);
      list := [id] + list;
      m := m[fd := h];
    }

    /** What a callback does: a run of handler changes, while the walk holds the lock. */
    method Callback(cs: seq<Change>) returns (ghost added: seq<nat>)
      requires Valid() && walking
      modifies this`nodes, this`first, this`list, this`m
      ensures Valid() && m == ApplyAll(old(m), cs) && Marked(old(nodes), nodes, cs) && list == added + old(list)
    {
      added := [];
      hide Linked, Refines;
      for k := 0 to |cs|
        invariant Valid() && m == ApplyAll(old(m), cs[..k]) && Marked(old(nodes), nodes, cs[..k]) &&
                  list == added + old(list)
      {
        ghost var before := nodes;
        ghost var more := SetFdHandler(cs[k].fd, cs[k].h);
        assert Change(cs[k].fd, cs[k].h) == cs[k];
        assert cs[..k + 1] == cs[..k] + [cs[k]];
        MarkedTwice(old(nodes), before, nodes, cs[..k], [cs[k]]);
        added := more + added;
      }
      assert cs[..|cs|] == cs;
    }

    /** The two callbacks of a node, each after a fresh look at it. */
    method Serve(id: nat, rd: set<int>, wr: set<int>, onRead: seq<Change>, onWrite: seq<Change>)
        returns (read: bool, write: bool, ghost c1: seq<Change>, ghost c2: seq<Change>, ghost added: seq<nat>)
      requires Valid() && walking && id in nodes
      modifies this`nodes, this`first, this`list, this`m
      ensures Valid() && m == ApplyAll(ApplyAll(old(m), c1), c2)
      ensures Marked(old(nodes), nodes, c1 + c2) && list == added + old(list)
      ensures c1 == (if read then onRead else []) && c2 == if write then onWrite else []
      ensures var n := old(nodes)[id];
              (!n.deleted ==> n.fd in old(m)) && (read <==> !n.deleted && n.fd in rd && old(m)[n.fd].read != 0)
      ensures var n := old(nodes)[id];
              var live := !n.deleted && !Unregistered(c1, n.fd);
              var h := ApplyAll(old(m), c1);
              (live ==> n.fd in h) && (write <==> live && n.fd in wr && h[n.fd].write != 0)
    {
      added, c1, c2 := [], [], [];
      NodeFacts(nodes, m, id);
      MarkedNothing(nodes);
      ghost var nodes0 := nodes;
      read := !nodes[id].deleted && nodes[id].fd in rd && nodes[id].h.read != 0;
      if read {
        c1 := onRead;
        added := Callback(onRead);
      }
      NodeFacts(nodes, m, id);
      MarkedNothing(nodes);
      hide Linked, Refines, ApplyAll;
      ghost var nodes1 := nodes;
      ghost var m1 := m;
      write := !nodes[id].deleted && nodes[id].fd in wr && nodes[id].h.write != 0;
      if write {
        c2 := onWrite;
        ghost var more := Callback(onWrite);
        added := more + added;
      }
      MarkedTwice(nodes0, nodes1, nodes, c1, c2);
    }

    /** Step to the next node, and free the one just left if it was unregistered meanwhile. */
    method Advance(tmp: nat, ghost a: seq<nat>, ghost b: seq<nat>) returns (next: Ptr)
      requires Valid() && list == a + [tmp] + b && tmp in nodes
      modifies this`nodes, this`first, this`list
      ensures Valid() && next == PtrAt(b, 0)
      ensures list == (if old(nodes)[tmp].deleted then a else a + [tmp]) + b
      ensures forall x :: x in old(nodes) && x != tmp ==> x in nodes && SameBut(old(nodes)[x], nodes[x])
    {
      NextIs(nodes, first, a, tmp, b);
      hide Linked, Refines;
      next := nodes[tmp].next;
      if nodes[tmp].deleted {
        UnlinkLinked(nodes, first, a, tmp, b);
        RefinesUnlink(nodes, m, tmp);
        UnlinkKeeps(nodes, tmp);
        first := NewFirst(first, nodes[tmp]);
        list := a + b;
        nodes := Unlinked(nodes, tmp);
      }
    }

    /** The callbacks at one stop of the dispatch walk. */
    method ServeStop(tmp: nat, k: nat, rd: set<int>, wr: set<int>, onRead: nat -> seq<Change>,
                     onWrite: nat -> seq<Change>, ghost s: Start, ghost w: Walk)
      returns (ghost v: Visit, ghost cs: seq<Change>, ghost more: seq<nat>)
      requires Valid() && walking && w.ahead != [] && tmp == w.ahead[0] && k == |w.visits|
      requires m == ApplyAll(s.m, w.changes) && WalkOk(s, w, nodes, rd, wr) &&
               Threaded(w.visits, w.changes, onRead, onWrite)
      modifies this`nodes, this`first, this`list, this`m
      ensures Valid() && list == more + old(list) && m == ApplyAll(s.m, w.changes + cs)
      ensures tmp in nodes && tmp in s.nodes && v.id == tmp && v.freed == nodes[tmp].deleted
      ensures Marked(old(nodes), nodes, cs) && VisitOk(v, s.nodes[tmp], s.m, w.changes + cs, rd, wr)
      ensures Threaded(w.visits + [v], w.changes + cs, onRead, onWrite)
    {
      AheadFirst(s.nodes, nodes, w.ahead, w.changes);
      hide Linked, Refines, WalkOk, Threaded, Unregistered, ApplyAll, VisitOk, Kept, Marked;
      var read, write;
      ghost var c1, c2;
      read, write, c1, c2, more := Serve(tmp, rd, wr, onRead(k), onWrite(k));
      cs := c1 + c2;
      MarkedKeeps(old(nodes), nodes, cs, tmp);
      v := Visit(tmp, |w.changes|, |w.changes + c1|, |w.changes + c1 + c2|, read, write, nodes[tmp].deleted);
      StopRecorded(s.nodes, old(nodes), nodes, s.m, old(m), tmp, w.changes, c1, c2, rd, wr, v);
      StepThreaded(w.visits, w.changes, c1, c2, v, onRead, onWrite);
      ApplyThrice(s.m, w.changes, c1, c2);
    }

    /** One stop of the dispatch walk. */
    method Stop(tmp: nat, k: nat, rd: set<int>, wr: set<int>, onRead: nat -> seq<Change>, onWrite: nat -> seq<Change>,
                ghost s: Start, ghost w: Walk) returns (next: Ptr, ghost w': Walk)
      requires Valid() && walking && w.ahead != [] && tmp == w.ahead[0] && k == |w.visits|
      requires InWalk(list, w) && m == ApplyAll(s.m, w.changes)
      requires WalkOk(s, w, nodes, rd, wr) && Threaded(w.visits, w.changes, onRead, onWrite)
      modifies this`nodes, this`first, this`list, this`m
      ensures Valid() && w'.ahead == w.ahead[1..] && next == PtrAt(w'.ahead, 0) && |w'.visits| == k + 1
      ensures InWalk(list, w') && m == ApplyAll(s.m, w'.changes)
      ensures WalkOk(s, w', nodes, rd, wr) && Threaded(w'.visits, w'.changes, onRead, onWrite)
    {
      hide Linked, Refines, WalkOk, Threaded, ApplyAll, VisitOk, Marked, Kept;
      ghost var v, cs, more := ServeStop(tmp, k, rd, wr, onRead, onWrite, s, w);
      ghost var (front, rest, nodes2) := (more + w.added + Kept(w.visits), w.ahead[1..], nodes);
      assert list == front + [tmp] + rest;
      next := Advance(tmp, front, rest);
      w' := Walk(w.visits + [v], w.changes + cs, more + w.added, rest);
      KeptStep(w.visits, v);
      assert w'.added + Kept(w'.visits) == front + if v.freed then [] else [tmp];
      WalkStep(s, w, old(nodes), nodes2, nodes, cs, v, w', rd, wr);
    }

    /** The dispatch walk: it stops at every node of the list it started on, once each and in order,
        whatever the callbacks register or unregister, and never touches a freed node. */
    method Dispatch(rd: set<int>, wr: set<int>, onRead: nat -> seq<Change>, onWrite: nat -> seq<Change>)
        returns (ghost visits: seq<Visit>, ghost changes: seq<Change>, ghost added: seq<nat>)
      requires Valid()
      modifies this
      ensures Valid() && !walking && m == ApplyAll(old(m), changes) && list == added + Kept(visits)
      ensures Visits(visits, old(list), old(nodes), old(m), changes, rd, wr)
      ensures Threaded(visits, changes, onRead, onWrite)
    {
      hide Linked, Refines, WalkOk, Visits, Threaded, ApplyAll, InWalk, Kept;
      walking := true;
      var node := first;
      var k: nat := 0;      // the number of nodes visited
      ghost var s := Start(list, nodes, m);
      ghost var w := Walk([], [], [], list);
      WalkStarts(first, s, rd, wr);
      ThreadedNone(onRead, onWrite);
      ApplyAllNone(m);
      while node.At?
        invariant Valid() && walking && node == PtrAt(w.ahead, 0) && |w.visits| == k
        invariant InWalk(list, w) && m == ApplyAll(s.m, w.changes)
        invariant WalkOk(s, w, nodes, rd, wr) && Threaded(w.visits, w.changes, onRead, onWrite)
        decreases |w.ahead|
      {
        node, w := Stop(node.id, k, rd, wr, onRead, onWrite, s, w);
        k := k + 1;
      }
      WalkEnds(s, w, nodes, list, rd, wr);
      visits, changes, added := w.visits, w.changes, w.added;
      walking := false;
    }
  }

  /** The state a walk starts from, and how far it has come. */
  datatype Start = Start(list: seq<nat>, nodes: map<nat, Node>, m: map<int, Handler>)

  datatype Walk = Walk(visits: seq<Visit>, changes: seq<Change>, added: seq<nat>, ahead: seq<nat>)

  ghost predicate WalkOk(s: Start, w: Walk, nodes: map<nat, Node>, rd: set<int>, wr: set<int>) {
    var k := |w.visits|;
    && NoDup(s.list) && k <= |s.list| && w.ahead == s.list[k..]
    && AheadOk(s.nodes, nodes, w.ahead, w.changes)
    && Visits(w.visits, s.list[..k], s.nodes, s.m, w.changes, rd, wr)
  }

  /** The list as the walk goes on: new nodes, the ones it kept, and the ones ahead. */
  ghost predicate InWalk(list: seq<nat>, w: Walk) { list == w.added + Kept(w.visits) + w.ahead }

  lemma {:induction false} WalkStarts(first: Ptr, s: Start, rd: set<int>, wr: set<int>)
    requires Linked(s.nodes, first, s.list)
    ensures WalkOk(s, Walk([], [], [], s.list), s.nodes, rd, wr) && first == PtrAt(s.list, 0)
    ensures InWalk(s.list, Walk([], [], [], s.list))
  {
    StartAhead(s.nodes, first, s.list);
    assert Visits([], s.list[..0], s.nodes, s.m, [], rd, wr);
    hide AheadOk, Visits;
  }

  lemma {:induction false} WalkEnds(s: Start, w: Walk, nodes: map<nat, Node>, list: seq<nat>, rd: set<int>,
                                    wr: set<int>)
    requires WalkOk(s, w, nodes, rd, wr) && w.ahead == [] && InWalk(list, w)
    ensures Visits(w.visits, s.list, s.nodes, s.m, w.changes, rd, wr) && list == w.added + Kept(w.visits)
  {
    hide AheadOk, Visits;
    assert s.list[..|w.visits|] == s.list;
  }

  lemma {:induction false} WalkStep(s: Start, w: Walk, nodes1: map<nat, Node>, nodes2: map<nat, Node>,
                                    nodes3: map<nat, Node>, more: seq<Change>, v: Visit, w': Walk, rd: set<int>,
                                    wr: set<int>)
    requires WalkOk(s, w, nodes1, rd, wr) && w.ahead != [] && v.id == w.ahead[0] && v.id in s.nodes
    requires Marked(nodes1, nodes2, more) && VisitOk(v, s.nodes[v.id], s.m, w.changes + more, rd, wr)
    requires forall x :: x in nodes2 && x != v.id ==> x in nodes3 && SameBut(nodes2[x], nodes3[x])
    requires w'.visits == w.visits + [v] && w'.changes == w.changes + more && w'.ahead == w.ahead[1..]
    ensures WalkOk(s, w', nodes3, rd, wr)
  {
    var k := |w.visits|;
    AheadMarked(s.nodes, nodes1, nodes2, w.ahead, w.changes, more);
    AheadNoDup(s.list, k);
    hide Visits, Marked, VisitOk, NoDup;
    AheadDrop(s.nodes, nodes2, nodes3, w.ahead, w.changes + more);
    StepVisits(w.visits, s.list, k, s.nodes, s.m, w.changes, more, v, rd, wr);
  }

  lemma {:induction false} ApplyAllNone(m: map<int, Handler>)
    ensures ApplyAll(m, []) == m
  {}

  /** Every node of the list was visited in order, and every visit did what it should. */
  ghost predicate Visits(visits: seq<Visit>, ids: seq<nat>, nodes0: map<nat, Node>, m0: map<int, Handler>,
                         cs: seq<Change>, rd: set<int>, wr: set<int>) {
    && |visits| == |ids|
    && forall i :: 0 <= i < |visits| ==>
         visits[i].id == ids[i] && ids[i] in nodes0 && VisitOk(visits[i], nodes0[ids[i]], m0, cs, rd, wr)
  }

  /** The changes of the walk are those of the callbacks it made, in the order it made them. */
  ghost predicate Threaded(visits: seq<Visit>, cs: seq<Change>, onRead: nat -> seq<Change>,
                           onWrite: nat -> seq<Change>) {
    && |cs| == (if visits == [] then 0 else visits[|visits| - 1].left)
    && forall i :: 0 <= i < |visits| ==> ThreadedAt(visits, cs, onRead, onWrite, i)
  }

  ghost predicate ThreadedAt(visits: seq<Visit>, cs: seq<Change>, onRead: nat -> seq<Change>,
                             onWrite: nat -> seq<Change>, i: nat)
    requires i < |visits|
  {
    var v := visits[i];
    && v.reached == (if i == 0 then 0 else visits[i - 1].left)
    && v.reached <= v.middle <= v.left <= |cs|
    && cs[v.reached..v.middle] == (if v.read then onRead(i) else [])
    && cs[v.middle..v.left] == (if v.write then onWrite(i) else [])
  }

  lemma {:induction false} ThreadedNone(onRead: nat -> seq<Change>, onWrite: nat -> seq<Change>)
    ensures Threaded([], [], onRead, onWrite)
  {}

  lemma {:induction false} StepThreaded(visits: seq<Visit>, cs: seq<Change>, c1: seq<Change>, c2: seq<Change>, v: Visit,
                                        onRead: nat -> seq<Change>, onWrite: nat -> seq<Change>)
    requires Threaded(visits, cs, onRead, onWrite)
    requires v.reached == |cs| && v.middle == |cs + c1| && v.left == |cs + c1 + c2|
    requires c1 == (if v.read then onRead(|visits|) else []) && c2 == if v.write then onWrite(|visits|) else []
    ensures Threaded(visits + [v], cs + c1 + c2, onRead, onWrite)
  {
    var (visits', all) := (visits + [v], cs + c1 + c2);
    assert all[..|cs|] == cs;
    hide ThreadedAt;
    ThreadedNew(visits, cs, c1, c2, v, onRead, onWrite);
    forall i | 0 <= i < |visits'| ensures ThreadedAt(visits', all, onRead, onWrite, i) {
      if i < |visits| { ThreadedStays(visits, v, cs, all, onRead, onWrite, i); }
    }
  }

  lemma {:induction false} ThreadedNew(visits: seq<Visit>, cs: seq<Change>, c1: seq<Change>, c2: seq<Change>, v: Visit,
                                       onRead: nat -> seq<Change>, onWrite: nat -> seq<Change>)
    requires |cs| == (if visits == [] then 0 else visits[|visits| - 1].left)
    requires v.reached == |cs| && v.middle == |cs + c1| && v.left == |cs + c1 + c2|
    requires c1 == (if v.read then onRead(|visits|) else []) && c2 == if v.write then onWrite(|visits|) else []
    ensures ThreadedAt(visits + [v], cs + c1 + c2, onRead, onWrite, |visits|)
  {
    SlicesAre(cs, c1, c2);
  }

  lemma {:induction false} ThreadedStays(visits: seq<Visit>, v: Visit, cs: seq<Change>, all: seq<Change>,
                                         onRead: nat -> seq<Change>, onWrite: nat -> seq<Change>, i: nat)
    requires i < |visits| && ThreadedAt(visits, cs, onRead, onWrite, i) && |cs| <= |all| && all[..|cs|] == cs
    ensures ThreadedAt(visits + [v], all, onRead, onWrite, i)
  {
    var w := visits[i];
    SliceStays(cs, all, w.reached, w.middle);
    SliceStays(cs, all, w.middle, w.left);
  }

  lemma {:induction false} SlicesAre(cs: seq<Change>, c1: seq<Change>, c2: seq<Change>)
    ensures (cs + c1 + c2)[|cs|..|cs + c1|] == c1 && (cs + c1 + c2)[|cs + c1|..|cs + c1 + c2|] == c2
  {}

  lemma {:induction false} SliceStays(cs: seq<Change>, all: seq<Change>, i: nat, j: nat)
    requires i <= j <= |cs| <= |all| && all[..|cs|] == cs
    ensures all[i..j] == cs[i..j]
  {
    assert all[..|cs|][i..j] == all[i..j];
  }

  lemma {:induction false} StepVisits(visits: seq<Visit>, list0: seq<nat>, k: nat, nodes0: map<nat, Node>,
                                      m0: map<int, Handler>, cs: seq<Change>, more: seq<Change>, v: Visit, rd: set<int>,
                                      wr: set<int>)
    requires k < |list0| && Visits(visits, list0[..k], nodes0, m0, cs, rd, wr)
    requires v.id == list0[k] && v.id in nodes0 && VisitOk(v, nodes0[v.id], m0, cs + more, rd, wr)
    ensures Visits(visits + [v], list0[..k + 1], nodes0, m0, cs + more, rd, wr)
  {
    var (visits', ids) := (visits + [v], list0[..k + 1]);
    hide VisitOk;
    forall i | 0 <= i < |visits'|
      ensures visits'[i].id == ids[i] && ids[i] in nodes0 && VisitOk(visits'[i], nodes0[ids[i]], m0, cs + more, rd, wr)
    {
      if i < k {
        assert list0[..k][i] == ids[i] && visits[i].id == ids[i];
        VisitStays(visits[i], nodes0[ids[i]], m0, cs, more, rd, wr);
      }
    }
  }

  /** What Serve reports of a node ahead is a correct visit of it. */
  lemma {:induction false} StopRecorded(nodes0: map<nat, Node>, nodes1: map<nat, Node>, nodes2: map<nat, Node>,
                                        m0: map<int, Handler>, m1: map<int, Handler>,
                     id: nat, cs: seq<Change>, c1: seq<Change>, c2: seq<Change>, rd: set<int>, wr: set<int>, v: Visit)
    requires id in nodes0 && id in nodes1 && nodes1[id].fd == nodes0[id].fd
    requires nodes1[id].deleted <==> nodes0[id].deleted || Unregistered(cs, nodes0[id].fd)
    requires m1 == ApplyAll(m0, cs) && Marked(nodes1, nodes2, c1 + c2) && id in nodes2 && v.freed == nodes2[id].deleted
    requires v.reached == |cs| && v.middle == |cs + c1| && v.left == |cs + c1 + c2|
    requires var n := nodes1[id];
             (!n.deleted ==> n.fd in m1) && (v.read <==> !n.deleted && n.fd in rd && m1[n.fd].read != 0)
    requires var n := nodes1[id];
             var live := !n.deleted && !Unregistered(c1, n.fd);
             var h := ApplyAll(m1, c1);
             (live ==> n.fd in h) && (v.write <==> live && n.fd in wr && h[n.fd].write != 0)
    ensures VisitOk(v, nodes0[id], m0, cs + c1 + c2, rd, wr)
  {
    var fd := nodes0[id].fd;
    UnregisteredConcat(cs, c1, fd);
    UnregisteredConcat(cs, c1 + c2, fd);
    assert cs + (c1 + c2) == cs + c1 + c2;
    ApplyAllConcat(m0, cs, c1);
    hide Unregistered, ApplyAll;
    VisitRecorded(nodes0[id], m0, cs, c1, c2, rd, wr, v);
  }

  lemma {:induction false} AheadFirst(nodes0: map<nat, Node>, nodes: map<nat, Node>, ahead: seq<nat>, cs: seq<Change>)
    requires AheadOk(nodes0, nodes, ahead, cs) && |ahead| > 0
    ensures var id := ahead[0];
            id in nodes0 && id in nodes && nodes[id].fd == nodes0[id].fd &&
            (nodes[id].deleted <==> nodes0[id].deleted || Unregistered(cs, nodes0[id].fd))
  {}

  lemma {:induction false} StartAhead(nodes: map<nat, Node>, first: Ptr, list: seq<nat>)
    requires Linked(nodes, first, list)
    ensures AheadOk(nodes, nodes, list, []) && first == PtrAt(list, 0) && NoDup(list)
  {
    forall i | 0 <= i < |list| ensures list[i] in nodes { assert LinkedAt(nodes, list, i); }
  }

  lemma {:induction false} AheadNoDup(list: seq<nat>, k: nat)
    requires NoDup(list) && k < |list|
    ensures forall i :: 0 < i < |list[k..]| ==> list[k..][i] != list[k..][0]
  {
    assert forall i :: 0 <= i < |list[k..]| ==> list[k..][i] == list[k + i];
  }

  lemma {:induction false} KeptStep(visits: seq<Visit>, v: Visit)
    ensures Kept(visits + [v]) == Kept(visits) + if v.freed then [] else [v.id]
  {
    assert (visits + [v])[..|visits|] == visits;
  }

  lemma {:induction false} NextIs(nodes: map<nat, Node>, first: Ptr, a: seq<nat>, id: nat, b: seq<nat>)
    requires Linked(nodes, first, a + [id] + b) && id in nodes
    ensures nodes[id].next == PtrAt(b, 0)
  {
    var list := a + [id] + b;
    assert list[|a|] == id && LinkedAt(nodes, list, |a|);
  }

  lemma {:induction false} NodeFacts(nodes: map<nat, Node>, m: map<int, Handler>, id: nat)
    requires Refines(nodes, m) && id in nodes
    ensures !nodes[id].deleted ==> nodes[id].fd in m && m[nodes[id].fd] == nodes[id].h
  {
    if !nodes[id].deleted { assert Live(nodes, id); }
  }

  lemma {:induction false} MarkedKeeps(nodes: map<nat, Node>, nodes': map<nat, Node>, cs: seq<Change>, id: nat)
    requires Marked(nodes, nodes', cs) && id in nodes
    ensures id in nodes'
  {}

  lemma {:induction false} MarkedNothing(nodes: map<nat, Node>)
    ensures Marked(nodes, nodes, [])
  {}
}
