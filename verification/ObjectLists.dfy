/** The doubly linked lists of content/llcache.c: objects in a cache list and users of an object
    are put in at the head and taken out anywhere, also while the list is being walked. */
module ObjectLists {
  import opened CacheState

  class ListNode<T> {
    const item: T
    var next: ListNode?<T>
    var prev: ListNode?<T>

    constructor (item: T)
      ensures this.item == item && next == null && prev == null
    {
      this.item, next, prev := item, null, null;
    }
  }

  /** The node at a place of a list, or none outside it. */
  function Nth<T>(list: seq<ListNode<T>>, i: int): ListNode?<T> {
    if 0 <= i < |list| then list[i] else null
  }

  ghost predicate Distinct<T>(list: seq<ListNode<T>>) {
    forall i, j :: 0 <= i < j < |list| ==> list[i] != list[j]
  }

  ghost predicate Link<T>(list: seq<ListNode<T>>, i: nat)
    requires i < |list|
    reads list
  {
    list[i].next == Nth(list, i + 1) && list[i].prev == Nth(list, i - 1)
  }

  /** From `head` on the nodes are linked as this list, in both directions. */
  ghost predicate Chain<T>(head: ListNode?<T>, list: seq<ListNode<T>>)
    reads list
  {
    Distinct(list) && head == Nth(list, 0) && forall i :: 0 <= i < |list| ==> Link(list, i)
  }

  /** A list with one node taken out. */
  function Cut<T>(list: seq<ListNode<T>>, k: nat): seq<ListNode<T>>
    requires k < |list|
  {
    list[..k] + list[k + 1..]
  }

  lemma CutDistinct<T>(list: seq<ListNode<T>>, k: nat)
    requires Distinct(list) && k < |list|
    ensures Distinct(Cut(list, k)) && forall i :: 0 <= i < |list| && i != k ==> list[i] != list[k]
    ensures k > 0 ==> forall i :: 0 <= i < |list| && i != k - 1 ==> list[i] != list[k - 1]
    ensures k + 1 < |list| ==> forall i :: 0 <= i < |list| && i != k + 1 ==> list[i] != list[k + 1]
  {
  }

  /** llcache_object_add_to_list, and the list part of llcache_object_add_user. */
  method PushFront<T>(head: ListNode?<T>, n: ListNode<T>, ghost list: seq<ListNode<T>>) returns (head': ListNode<T>)
    requires Chain(head, list) && n !in list
    modifies n, list`prev
    ensures head' == n && Chain(head', [n] + list)
  {
    n.prev := null;
    n.next := head;
    assert list != [] ==> Link(list, 0);
    if head != null { head.prev := n; }
    head' := n;
    ghost var all := [n] + list;
    forall i | 0 <= i < |all| ensures Link(all, i) {
      if i > 0 { assert old(Link(list, i - 1)); }
    }
  }

  /** llcache_object_remove_from_list, and the list part of llcache_object_remove_user: the head
      moves on if it is the node, and otherwise the node before it is linked past it. */
  method Remove<T>(head: ListNode?<T>, n: ListNode<T>, ghost list: seq<ListNode<T>>, ghost k: nat)
      returns (head': ListNode?<T>)
    requires Chain(head, list) && k < |list| && list[k] == n
    modifies list`next, list`prev
    ensures Chain(head', Cut(list, k))
  {
    hide Distinct;
    CutDistinct(list, k);
    assert Link(list, k) && (k > 0 ==> Link(list, k - 1)) && (k + 1 < |list| ==> Link(list, k + 1));
    head' := head;
    if n == head { head' := n.next; } else { n.prev.next := n.next; }
    if n.next != null { n.next.prev := n.prev; }
    ghost var left := Cut(list, k);
    forall i | 0 <= i < |left| ensures Link(left, i) {
      if i < k { assert old(Link(list, i)); } else { assert old(Link(list, i + 1)); }
    }
  }

  // ---------------------------------------------------------------- users

  /** A client's handle; it points to the object that it uses. */
  class Handle {
    const id: UserId
    var target: Entry?

    constructor (id: UserId)
      ensures this.id == id && target == null
    {
      this.id, target := id, null;
    }
  }

  /** A cache object: its record, and the list of its users. */
  class Entry {
    const id: Id
    var obj: Obj
    var users: ListNode?<Handle>

    constructor (id: Id, obj: Obj)
      ensures this.id == id && this.obj == obj && users == null
    {
      this.id, this.obj, users := id, obj, null;
    }
  }

  function Reversed<T>(s: seq<T>): (r: seq<T>)
    ensures |r| == |s|
  {
    if s == [] then [] else Reversed(s[1..]) + [s[0]]
  }

  lemma {:induction false} ReversedLast<T>(s: seq<T>, x: T)
    ensures Reversed(s + [x]) == [x] + Reversed(s)
  {
    if s != [] {
      assert (s + [x])[1..] == s[1..] + [x];
      ReversedLast(s[1..], x);
    }
  }

  lemma ChainHead<T>(head: ListNode?<T>, list: seq<ListNode<T>>)
    requires Chain(head, list)
    ensures head == Nth(list, 0)
    ensures list != [] ==> list[0].next == Nth(list, 1) && list[0] !in list[1..] && Cut(list, 0) == list[1..]
  {
    assert list != [] ==> Link(list, 0);
  }

  /** One user from an object to another: llcache_object_remove_user of the first user, then
      llcache_object_add_user. */
  method MoveFirst(from: Entry, to: Entry, ghost fl: seq<ListNode<Handle>>, ghost tl: seq<ListNode<Handle>>)
    requires from != to && fl != [] && Chain(from.users, fl) && Chain(to.users, tl) && forall n :: n in fl ==> n !in tl
    modifies from`users, to`users, fl, tl`prev, fl[0].item`target
    ensures Chain(from.users, fl[1..]) && Chain(to.users, [fl[0]] + tl) && fl[0].item.target == to
  {
    hide Chain;
    ChainHead(from.users, fl);
    var user := from.users;
    from.users := Remove(from.users, user, fl, 0);
    user.next, user.prev := null, null;
    user.item.target := to;
    assert forall n :: n in tl ==> n !in fl && n.next == old(n.next) && n.prev == old(n.prev);
    to.users := PushFront(to.users, user, tl);
  }

  /** One more node moved: what is left, and what was moved onto the other list. */
  ghost predicate Parted<T>(fl: seq<ListNode<T>>, tl: seq<ListNode<T>>, rest: seq<ListNode<T>>, acc: seq<ListNode<T>>) {
    && |rest| <= |fl| && rest == fl[|fl| - |rest|..] && acc == Reversed(fl[..|fl| - |rest|]) + tl
    && (forall n :: n in rest ==> n in fl && n !in acc) && (forall n :: n in acc ==> n in fl || n in tl)
  }

  lemma PartedNext<T>(fl: seq<ListNode<T>>, tl: seq<ListNode<T>>, rest: seq<ListNode<T>>, acc: seq<ListNode<T>>)
    requires Parted(fl, tl, rest, acc) && rest != [] && rest[0] !in rest[1..]
    ensures Parted(fl, tl, rest[1..], [rest[0]] + acc)
  {
    var i := |fl| - |rest|;
    assert rest[0] == fl[i] && rest[1..] == fl[i + 1..];
    assert fl[..i + 1] == fl[..i] + [fl[i]];
    ReversedLast(fl[..i], fl[i]);
    assert [fl[i]] + (Reversed(fl[..i]) + tl) == Reversed(fl[..i + 1]) + tl;
  }

  /** The loops of llcache_fetch_redirect and llcache_fetch_notmodified: the next user is noted,
      the first one moved.  All users end up at the other object, in the opposite order, and
      their handles point to it. */
  method MoveAll(from: Entry, to: Entry, ghost fl: seq<ListNode<Handle>>, ghost tl: seq<ListNode<Handle>>)
    requires from != to && Chain(from.users, fl) && Chain(to.users, tl) && forall n :: n in fl ==> n !in tl
    modifies from`users, to`users, fl, tl`prev, (set n | n in fl :: n.item)`target
    ensures from.users == null && Chain(to.users, Reversed(fl) + tl)
    ensures forall n :: n in fl ==> n.item.target == to
  {
    hide Chain, Reversed;
    ChainHead(from.users, fl);
    var user := from.users;
    ghost var rest, acc := fl, tl;
    assert Parted(fl, tl, rest, acc) by { PartedStart(fl, tl); }
    while user != null
      invariant Parted(fl, tl, rest, acc) && user == Nth(rest, 0) && Chain(from.users, rest) && Chain(to.users, acc)
      invariant forall n :: n in fl && n !in rest ==> n.item.target == to
      decreases |rest|
    {
      ChainHead(from.users, rest);
      var next := user.next;
      assert rest[0].item in (set n | n in fl :: n.item);
      assert forall i :: 0 <= i < |rest| ==> rest[i] in fl;
      assert forall i :: 0 <= i < |acc| ==> acc[i] in fl || acc[i] in tl;
      MoveFirst(from, to, rest, acc);
      PartedNext(fl, tl, rest, acc);
      rest, acc := rest[1..], [rest[0]] + acc;
      user := next;
    }
    ChainHead(from.users, rest);
    assert fl[..|fl|] == fl;
  }

  lemma PartedStart<T>(fl: seq<ListNode<T>>, tl: seq<ListNode<T>>)
    requires forall n :: n in fl ==> n !in tl
    ensures Parted(fl, tl, fl, tl)
  {
    assert Reversed(fl[..0]) + tl == tl;
  }
}
