/** The cache lists of content/llcache.c as linked objects: the search of the cached list, and the
    passes of llcache_clean, which unlink objects from the list that they walk. */
module ObjectCache {
  import opened Options
  import opened CacheState
  import opened ObjectLists

  // ---------------------------------------------------------------- the newest object at a URL

  /** `r` was requested last among the first `n` cached objects at `url`, and is the first of
      those requested at that time. */
  predicate IsNewest(s: Cache, url: string, n: nat, r: Option<Id>)
    requires n <= |s.cached|
  {
    match r
    case None => forall i :: 0 <= i < n && s.cached[i] in s.objects ==> s.objects[s.cached[i]].url != url
    case Some(id) =>
      && id in s.objects && s.objects[id].url == url
      && exists k :: 0 <= k < n && s.cached[k] == id && Beats(s, url, n, id, k)
  }

  /** Nothing at `url` among the first `n` was requested after `id`, and nothing before place
      `k` as late. */
  predicate Beats(s: Cache, url: string, n: nat, id: Id, k: nat)
    requires n <= |s.cached| && id in s.objects
  {
    forall i :: 0 <= i < n && s.cached[i] in s.objects && s.objects[s.cached[i]].url == url ==>
      && s.objects[s.cached[i]].time <= s.objects[id].time
      && (i < k ==> s.objects[s.cached[i]].time < s.objects[id].time)
  }

  lemma {:induction false} NewestIs(s: Cache, url: string, n: nat)
    requires n <= |s.cached|
    ensures IsNewest(s, url, n, Newest(s, url, n))
  {
    if n > 0 {
      NewestIs(s, url, n - 1);
      var best, r := Newest(s, url, n - 1), Newest(s, url, n);
      if r != best {
        assert s.cached[n - 1] == r.value && Beats(s, url, n, r.value, n - 1);
      } else if r.Some? {
        var k :| 0 <= k < n - 1 && s.cached[k] == r.value && Beats(s, url, n - 1, r.value, k);
        assert Beats(s, url, n, r.value, k);
      }
    }
  }

  // ---------------------------------------------------------------- lists and the state they hold

  type Nodes = seq<ListNode<Entry>>

  function Ids(list: Nodes): (ids: seq<Id>)
    ensures |ids| == |list| && forall i :: 0 <= i < |list| ==> ids[i] == list[i].item.id
  {
    seq(|list|, i requires 0 <= i < |list| => list[i].item.id)
  }

  predicate Different(ids: seq<Id>) {
    forall i, j :: 0 <= i < j < |ids| ==> ids[i] != ids[j]
  }

  /** The object is as the state says, and its list of users empty exactly if it has none. */
  ghost predicate Shows(s: Cache, e: Entry)
    reads e
  {
    e.id in s.objects && s.objects[e.id] == e.obj && (e.users == null <==> NoUsers(s, e.id))
  }

  ghost function Items(list: Nodes): (es: set<Entry>)
    ensures forall i :: 0 <= i < |list| ==> list[i].item in es
  {
    set i | 0 <= i < |list| :: list[i].item
  }

  ghost predicate AllShow(s: Cache, list: Nodes)
    reads Items(list)
  {
    forall i :: 0 <= i < |list| ==> Shows(s, list[i].item)
  }

  /** The two lists hold the state. */
  ghost predicate Reflects(s: Cache, cs: Nodes, us: Nodes)
    reads Items(cs), Items(us)
  {
    && s.cached == Ids(cs) && s.uncached == Ids(us) && Different(s.cached + s.uncached)
    && AllShow(s, cs) && AllShow(s, us)
    && forall id :: id in s.objects ==> id in s.cached || id in s.uncached
  }

  /** The search at the start of llcache_object_retrieve_from_cache, along the links. */
  method FindNewest(head: ListNode?<Entry>, url: string, ghost s: Cache, ghost cs: Nodes) returns (newest: Entry?)
    requires Chain(head, cs) && s.cached == Ids(cs) && AllShow(s, cs)
    ensures match Newest(s, url, |cs|)
            case None => newest == null
            case Some(id) => newest != null && newest.id == id && Shows(s, newest)
  {
    hide Distinct, NoUsers;
    newest := null;
    var node := head;
    ghost var i := 0;
    while node != null
      invariant i <= |cs| && node == Nth(cs, i)
      invariant match Newest(s, url, i)
                case None => newest == null
                case Some(id) => newest != null && newest.id == id && Shows(s, newest)
      decreases |cs| - i
    {
      assert Link(cs, i) && Shows(s, cs[i].item);
      if (newest == null || node.item.obj.time > newest.obj.time) && node.item.obj.url == url { newest := node.item; }
      node := node.next;
      i := i + 1;
    }
  }

  // ---------------------------------------------------------------- taking objects out

  lemma {:induction false} WithoutMore(list: seq<Id>, a: set<Id>, id: Id)
    ensures Without(Without(list, a), {id}) == Without(list, a + {id})
  {
    if list != [] {
      WithoutMore(list[1..], a, id);
      var rest := Without(list[1..], a);
      if list[0] in a {
        assert Without(list, a) == rest;
        assert Without(list, a + {id}) == Without(list[1..], a + {id});
      } else {
        assert Without(list, a) == [list[0]] + rest;
        assert ([list[0]] + rest)[1..] == rest;
      }
    }
  }

  lemma {:induction false} WithoutNone(list: seq<Id>)
    ensures Without(list, {}) == list
  {
    if list != [] { WithoutNone(list[1..]); }
  }

  lemma {:induction false} WithoutOther(list: seq<Id>, dead: set<Id>)
    requires forall i :: 0 <= i < |list| ==> list[i] !in dead
    ensures Without(list, dead) == list
  {
    if list != [] { WithoutOther(list[1..], dead); }
  }

  lemma {:induction false} WithoutSplit(a: seq<Id>, b: seq<Id>, dead: set<Id>)
    ensures Without(a + b, dead) == Without(a, dead) + Without(b, dead)
  {
    if a == [] {
      assert a + b == b;
    } else {
      assert (a + b)[1..] == a[1..] + b;
      WithoutSplit(a[1..], b, dead);
    }
  }

  lemma CutWithout(ids: seq<Id>, k: nat)
    requires k < |ids| && Different(ids)
    ensures ids[..k] + ids[k + 1..] == Without(ids, {ids[k]})
  {
    hide Without;
    var a, x, b := ids[..k], ids[k], ids[k + 1..];
    CutParts(a, x, b);
    assert ids == a + [x] + b;
  }

  lemma CutDifferent(ids: seq<Id>, k: nat)
    requires k < |ids| && Different(ids)
    ensures Different(ids[..k] + ids[k + 1..])
  {
  }

  lemma CutParts(a: seq<Id>, x: Id, b: seq<Id>)
    requires x !in a && x !in b
    ensures Without(a + [x] + b, {x}) == a + b
  {
    hide Without;
    WithoutSplit(a + [x], b, {x});
    WithoutSplit(a, [x], {x});
    WithoutOther(a, {x});
    WithoutOther(b, {x});
    WithoutItself(x);
  }

  lemma WithoutItself(x: Id)
    ensures Without([x], {x}) == []
  {
    assert [x][1..] == [];
  }

  /** Taking a node out of a list takes its number out. */
  lemma CutIds(list: Nodes, k: nat)
    requires k < |list| && Different(Ids(list))
    ensures Ids(Cut(list, k)) == Without(Ids(list), {list[k].item.id}) && Different(Ids(Cut(list, k)))
  {
    hide Without, Different;
    CutWithout(Ids(list), k);
    CutDifferent(Ids(list), k);
    assert Ids(Cut(list, k)) == Ids(list)[..k] + Ids(list)[k + 1..];
  }

  /** The part of a list that a pass gets to. */
  function Reached(ids: seq<Id>, visits: Option<nat>): seq<Id> {
    match visits
    case None => ids
    case Some(n) => Upto(ids, n)
  }

  /** The idle objects among some that `which` picks. */
  function Picked(s: Cache, ids: seq<Id>, which: (Id, Obj) -> bool): set<Id> {
    set id | id in ids && Idle(s, id) && which(id, s.objects[id])
  }

  /** A pass of llcache_clean over one of the lists: the next object is noted, and the one at hand
      unlinked and destroyed if it is idle and `which` picks it. */
  method Discard(head: ListNode?<Entry>, visits: Option<nat>, which: (Id, Obj) -> bool, ghost s: Cache,
      ghost list: Nodes)
      returns (head': ListNode?<Entry>, ghost left: Nodes)
    requires Chain(head, list) && AllShow(s, list) && Different(Ids(list))
    modifies list`next, list`prev
    ensures Chain(head', left) && forall i :: 0 <= i < |left| ==> left[i] in list
    ensures Ids(left) == Without(Ids(list), Picked(s, Reached(Ids(list), visits), which))
  {
    hide Chain, Without, Different, Unused, Ids, Cut, Picked, Reached;
    var node, j := head, 0;
    ghost var k := 0;
    ghost var dead: set<Id> := {};
    head', left := head, list;
    ChainHead(head, list);
    WithoutNone(Ids(list));
    assert dead == Picked(s, Ids(list)[..0], which) by { PickNone(s, Ids(list), which); }
    while node != null && (visits.None? || j < visits.value)
      invariant k <= |left| && j <= |list| && |left| - k == |list| - j && node == Nth(left, k)
      invariant Chain(head', left) && Different(Ids(left)) && left[k..] == list[j..]
      invariant forall i :: 0 <= i < |left| ==> left[i] in list
      invariant Ids(left) == Without(Ids(list), dead) && dead == Picked(s, Ids(list)[..j], which)
      invariant visits.Some? ==> j <= visits.value
      decreases |list| - j
    {
      var e := node.item;
      assert list[j] == left[k] == node && Shows(s, list[j].item);
      ChainNext(head', left, k);
      var next := node.next;
      PickOne(s, Ids(list), j, which);
      assert left[k..][1..] == left[k + 1..] && list[j..][1..] == list[j + 1..];
      if e.users == null && e.obj.count == 0 && !e.obj.fetching && which(e.id, e.obj) {
        CutIds(left, k);
        WithoutMore(Ids(list), dead, e.id);
        CutNext(left, k);
        CutWithin(left, k, list);
        head' := Remove(head', node, left, k);
        left := Cut(left, k);
        dead := dead + {e.id};
      } else {
        k := k + 1;
      }
      node := next;
      j := j + 1;
    }
    ReachedIs(Ids(list), visits, j);
  }

  lemma ReachedIs(ids: seq<Id>, visits: Option<nat>, j: nat)
    requires j <= |ids| && (visits.Some? ==> j <= visits.value) && (j == |ids| || visits == Some(j))
    ensures Reached(ids, visits) == ids[..j]
  {
  }

  lemma ChainNext<T>(head: ListNode?<T>, list: seq<ListNode<T>>, k: nat)
    requires Chain(head, list) && k < |list|
    ensures list[k].next == Nth(list, k + 1)
  {
    assert Link(list, k);
  }

  lemma CutWithin<T>(list: seq<ListNode<T>>, k: nat, all: seq<ListNode<T>>)
    requires k < |list| && forall i :: 0 <= i < |list| ==> list[i] in all
    ensures forall i :: 0 <= i < |Cut(list, k)| ==> Cut(list, k)[i] in all
  {
    var left := Cut(list, k);
    forall i | 0 <= i < |left| ensures left[i] in all {
      assert left[i] == list[if i < k then i else i + 1];
    }
  }

  lemma CutNext<T>(list: seq<ListNode<T>>, k: nat)
    requires k < |list|
    ensures |Cut(list, k)| == |list| - 1 && Nth(Cut(list, k), k) == Nth(list, k + 1)
    ensures Cut(list, k)[k..] == list[k..][1..] && list[k..][1..] == list[k + 1..]
  {
  }

  lemma PickNone(s: Cache, ids: seq<Id>, which: (Id, Obj) -> bool)
    ensures Picked(s, ids[..0], which) == {}
  {
  }

  lemma PickOne(s: Cache, ids: seq<Id>, j: nat, which: (Id, Obj) -> bool)
    requires j < |ids|
    ensures Picked(s, ids[..j + 1], which) ==
              Picked(s, ids[..j], which) + if Idle(s, ids[j]) && which(ids[j], s.objects[ids[j]]) then {ids[j]} else {}
  {
    assert ids[..j + 1] == ids[..j] + [ids[j]];
  }

  // ---------------------------------------------------------------- changing objects

  /** Objects of different nodes are different. */
  lemma Singled(list: Nodes, j: nat)
    requires Different(Ids(list)) && j < |list|
    ensures forall i :: 0 <= i < |list| && i != j ==> list[i].item != list[j].item
  {
    forall i | 0 <= i < |list| && i != j ensures list[i].item != list[j].item {
      assert Ids(list)[i] != Ids(list)[j];
    }
  }

  /** The records of a list of objects, and whether each is without users. */
  ghost function Records(list: Nodes): (rs: seq<(Obj, bool)>)
    reads *
    ensures |rs| == |list| && forall i :: 0 <= i < |list| ==> rs[i] == (list[i].item.obj, list[i].item.users == null)
  {
    seq(|list|, i requires 0 <= i < |list| reads * => (list[i].item.obj, list[i].item.users == null))
  }

  /** A pass that changes the records of the objects that it gets to. */
  method Rewrite(head: ListNode?<Entry>, visits: Option<nat>, f: (Id, Obj, bool) -> Obj,
                 ghost list: Nodes, ghost es: set<Entry>)
    requires Chain(head, list) && Different(Ids(list)) && forall i :: 0 <= i < |list| ==> list[i].item in es
    modifies es`obj
    ensures var was, now := old(Records(list)), Records(list);
            forall i :: 0 <= i < |list| ==>
              now[i] == (if visits.None? || i < visits.value then f(list[i].item.id, was[i].0, was[i].1)
                  else was[i].0, was[i].1)
  {
    hide Chain, Different, Ids;
    ChainHead(head, list);
    var node, j := head, 0;
    ghost var was := Records(list);
    while node != null && (visits.None? || j < visits.value)
      invariant j <= |list| && node == Nth(list, j) && Chain(head, list) && (visits.Some? ==> j <= visits.value)
      invariant Records(list) == Turned(list, was, j, f)
      decreases |list| - j
    {
      ChainNext(head, list, j);
      Singled(list, j);
      var e, next := node.item, node.next;
      assert Records(list)[j] == was[j];
      e.obj := f(e.id, e.obj, e.users == null);
      node := next;
      j := j + 1;
    }
  }

  /** The records once the first `j` have been changed. */
  ghost function Turned(list: Nodes, was: seq<(Obj, bool)>, j: nat, f: (Id, Obj, bool) -> Obj): (now: seq<(Obj, bool)>)
    requires |was| == |list|
    ensures |now| == |list|
    ensures forall i :: 0 <= i < |list| ==>
        now[i] == (if i < j then f(list[i].item.id, was[i].0, was[i].1) else was[i].0, was[i].1)
  {
    seq(|list|, i requires 0 <= i < |list| =>
      (if i < j then f(list[i].item.id, was[i].0, was[i].1) else was[i].0, was[i].1))
  }

  /** The state after such a pass over the cached list. */
  ghost predicate Rewritten(s: Cache, s': Cache, f: (Id, Obj, bool) -> Obj, visits: Option<nat>) {
    && s' == s.(objects := s'.objects) && s'.objects.Keys == s.objects.Keys
    && (forall id :: id in s.objects && id !in Reached(s.cached, visits) ==> s'.objects[id] == s.objects[id])
    && (forall id :: id in s.objects && id in Reached(s.cached, visits) ==>
        s'.objects[id] == f(id, s.objects[id], NoUsers(s, id)))
  }

  /** Records that were rewritten show the state that was rewritten. */
  lemma RewrittenShows(s: Cache, s': Cache, f: (Id, Obj, bool) -> Obj, visits: Option<nat>, cs: Nodes,
      was: seq<(Obj, bool)>)
    requires Rewritten(s, s', f, visits) && s.cached == Ids(cs) && Different(Ids(cs)) && |was| == |cs|
    requires forall i :: 0 <= i < |cs| ==>
               cs[i].item.id in s.objects && was[i] == (s.objects[cs[i].item.id], NoUsers(s, cs[i].item.id))
    requires forall i :: 0 <= i < |cs| ==>
               Records(cs)[i] == (if visits.None? || i < visits.value then f(cs[i].item.id, was[i].0, was[i].1)
                   else was[i].0, was[i].1)
    ensures AllShow(s', cs)
  {
    hide Unused;
    forall i | 0 <= i < |cs| ensures Shows(s', cs[i].item) {
      ReachedAt(Ids(cs), visits, i);
      assert Records(cs)[i] == (cs[i].item.obj, cs[i].item.users == null);
    }
  }

  lemma ReachedAt(ids: seq<Id>, visits: Option<nat>, i: nat)
    requires Different(ids) && i < |ids|
    ensures ids[i] in Reached(ids, visits) <==> visits.None? || i < visits.value
  {
    var r := Reached(ids, visits);
    assert forall j :: 0 <= j < |r| ==> r[j] == ids[j];
    if i < |r| { assert r[i] == ids[i]; }
  }
}
