/** The host tree of content/urldb.c and the search trees that index it.

    Hosts are added label by label from the right; only the leaf of an added host enters a
    search tree, picked by its first label alone.  A lookup picks the tree from the whole
    host string and compares dotted strings.  The index nevertheless reflects the database.
 */
module HostIndex {
  import opened Options
  import S = Strings
  import opened HostOrder
  import opened SearchTree

  /** One tree for IP addresses, one for everything else, one for each letter. */
  const TREES: nat := 28
  const ST_IP: nat := 0
  const ST_EE: nat := 1
  const ST_DN: nat := 2
  /** Room for a host name in the buffer that is cut up. */
  const MAX_HOST: nat := 255

  /** The host tree as its lists of children, newest first, and the search trees. */
  datatype Db = Db(children: map<Host, seq<Host>>, trees: seq<Tree>)

  function EmptyDb(): Db {
    Db(map[Root := []], seq(TREES, _ => Empty))
  }

  // ---------------------------------------------------------------- names

  function Clip(host: string): string {
    if |host| > MAX_HOST then host[..MAX_HOST] else host
  }

  predicate IsAlpha(c: char) {
    'a' <= c <= 'z' || 'A' <= c <= 'Z'
  }

  /** urldb_get_search_tree_direct. */
  function TreeOf(isIp: string -> bool, host: string): (i: nat)
    ensures i < TREES
  {
    if isIp(host) then ST_IP
    else if host != [] && IsAlpha(host[0]) then ST_DN + (Lower(host[0]) as int - 'a' as int)
    else ST_EE
  }

  /** The name starts with a letter. */
  predicate Lettered(host: string) {
    host != [] && IsAlpha(host[0])
  }

  /** Two hosts are looked up in one tree exactly if both are addresses, or both names that start
      with one letter up to case, or both names that start with none. */
  lemma TreesDivide(isIp: string -> bool, a: string, b: string)
    ensures TreeOf(isIp, a) == TreeOf(isIp, b) <==>
              && isIp(a) == isIp(b)
              && (!isIp(a) ==>
                    && Lettered(a) == Lettered(b)
                    && (Lettered(a) ==> SameLetter(a[0], b[0])))
  {
    if Lettered(a) && Lettered(b) { LowerSame(a[0], b[0]); }
  }

  /** The labels under which a host is filed. */
  function Key(isIp: string -> bool, host: string): seq<string> {
    LowerLabels(if isIp(host) then [host] else HostOrder.Split(host))
  }

  /** Case does not matter to the test for IP addresses. */
  ghost predicate CaseBlind(isIp: string -> bool) {
    forall s, t :: LowerAll(s) == LowerAll(t) ==> isIp(s) == isIp(t)
  }

  /** What the source takes for granted of the hosts that it is given: the first label of a
      name is no address.  Nothing is asked of other labels, or of other strings. */
  predicate Plain(isIp: string -> bool, host: string) {
    |host| <= MAX_HOST && (!isIp(host) ==> !isIp(HostOrder.Split(host)[0]))
  }

  predicate AllPlain(isIp: string -> bool, hosts: seq<string>) {
    forall k :: 0 <= k < |hosts| ==> Plain(isIp, hosts[k])
  }

  function Last(host: string): string {
    var ls := HostOrder.Split(host);
    ls[|ls| - 1]
  }

  /** The k-th host was no name's last label when it was added. */
  predicate Clear(isIp: string -> bool, hosts: seq<string>, k: nat)
    requires k < |hosts|
  {
    forall j :: 0 <= j < k && !isIp(hosts[j]) ==> LowerAll(Last(hosts[j])) != LowerAll(hosts[k])
  }

  /** Whether the k-th addition leaves its host in the index: every name, and an address
      unless it was the last label of a name before. */
  predicate Indexed(isIp: string -> bool, hosts: seq<string>, k: nat)
    requires k < |hosts|
  {
    isIp(hosts[k]) ==> Clear(isIp, hosts, k)
  }

  // ---------------------------------------------------------------- operations

  /** The first child with this label, compared without case. */
  function Child(kids: seq<Host>, name: string): Option<Host> {
    if kids == [] then None
    else if kids[0].Part? && CaseCompare(name, kids[0].part) == 0 then Some(kids[0])
    else Child(kids[1..], name)
  }

  function Kids(ch: map<Host, seq<Host>>, d: Host): seq<Host> {
    if d in ch then ch[d] else []
  }

  /** urldb_add_host_node: a new child at the head of its parent's list. */
  function AddNode(ch: map<Host, seq<Host>>, name: string, d: Host): map<Host, seq<Host>> {
    ch[d := [Part(name, d)] + Kids(ch, d)][Part(name, d) := []]
  }

  /** The child with this label, created if need be. */
  function Enter(ch: map<Host, seq<Host>>, name: string, d: Host): (map<Host, seq<Host>>, Host) {
    match Child(Kids(ch, d), name)
    case Some(e) => (ch, e)
    case None => (AddNode(ch, name, d), Part(name, d))
  }

  /** Entering labels (leaf first) from the last to the first below `d`. */
  function Attach(ch: map<Host, seq<Host>>, d: Host, ls: seq<string>): (map<Host, seq<Host>>, Host)
    decreases |ls|
  {
    if ls == [] then (ch, d)
    else
      var n := |ls| - 1;
      var (ch', e) := Enter(ch, ls[n], d);
      Attach(ch', e, ls[..n])
  }

  function IndexHost(trees: seq<Tree>, i: nat, h: Host): seq<Tree>
    requires i < |trees|
  {
    trees[i := Insert(trees[i], h)]
  }

  /** urldb_add_host: the new database and the host's node. */
  function Add(isIp: string -> bool, db: Db, host: string): (Db, Host)
    requires |db.trees| == TREES
  {
    if isIp(host) then
      match Child(Kids(db.children, Root), host)
      case Some(e) => (db, e)
      case None =>
        var h := Part(host, Root);
        (Db(AddNode(db.children, host, Root), IndexHost(db.trees, ST_IP, h)), h)
    else
      var ls := HostOrder.Split(Clip(host));
      var (ch, h) := Attach(db.children, Root, ls);
      (Db(ch, IndexHost(db.trees, TreeOf(isIp, ls[0]), h)), h)
  }

  /** The database after adding `hosts` in turn. */
  function Run(isIp: string -> bool, hosts: seq<string>): (db: Db)
    ensures |db.trees| == TREES
  {
    if hosts == [] then EmptyDb()
    else Add(isIp, Run(isIp, hosts[..|hosts| - 1]), hosts[|hosts| - 1]).0
  }

  // ---------------------------------------------------------------- the host tree

  /** Children know their parent, are in the tree themselves, and differ from their
      siblings by more than case. */
  predicate TreeOk(ch: map<Host, seq<Host>>) {
    && Root in ch
    && (forall d :: d in ch ==> AllChildren(ch, d, ch[d]) && AllDiffer(ch[d]))
    && (forall h :: h in ch && h.Part? ==> h.parent in ch && h in ch[h.parent])
  }

  predicate AllChildren(ch: map<Host, seq<Host>>, d: Host, kids: seq<Host>) {
    forall i :: 0 <= i < |kids| ==> IsChild(ch, d, kids[i])
  }

  predicate AllDiffer(kids: seq<Host>) {
    forall i, j :: 0 <= i < j < |kids| ==> Differ(kids[i], kids[j])
  }

  predicate IsChild(ch: map<Host, seq<Host>>, d: Host, e: Host) {
    e.Part? && e.parent == d && e in ch
  }

  predicate Differ(e: Host, f: Host) {
    e.Part? && f.Part? ==> LowerAll(e.part) != LowerAll(f.part)
  }

  lemma {:induction false} ChildFound(kids: seq<Host>, name: string)
    requires forall i :: 0 <= i < |kids| ==> kids[i].Part?
    ensures match Child(kids, name)
            case Some(e) => e in kids && e.Part? && LowerAll(e.part) == LowerAll(name)
            case None => forall e :: e in kids ==> LowerAll(e.part) != LowerAll(name)
  {
    if kids != [] {
      S.CompareZero(LowerAll(name), LowerAll(kids[0].part));
      ChildFound(kids[1..], name);
    }
  }

  lemma LowerStep(h: Host)
    requires h.Part?
    ensures LowerLabels(Labels(h)) == [LowerAll(h.part)] + LowerLabels(Labels(h.parent))
  {
    assert Labels(h)[1..] == Labels(h.parent);
  }

  /** Two nodes of one name are one node. */
  lemma {:induction false} NamesUnique(ch: map<Host, seq<Host>>, a: Host, b: Host)
    requires TreeOk(ch) && a in ch && b in ch && Same(a, b)
    ensures a == b
  {
    if a.Part? && b.Part? {
      LowerStep(a);
      LowerStep(b);
      assert LowerLabels(Labels(a))[1..] == LowerLabels(Labels(a.parent));
      assert LowerLabels(Labels(b))[1..] == LowerLabels(Labels(b.parent));
      NamesUnique(ch, a.parent, b.parent);
      var kids := ch[a.parent];
      var i :| 0 <= i < |kids| && kids[i] == a;
      var j :| 0 <= j < |kids| && kids[j] == b;
      assert !Differ(kids[i], kids[j]) && !Differ(kids[j], kids[i]);
    } else if a.Part? {
      LowerStep(a);
    } else if b.Part? {
      LowerStep(b);
    }
  }

  lemma NewChildDiffers(ch: map<Host, seq<Host>>, name: string, d: Host)
    requires TreeOk(ch) && d in ch && Child(ch[d], name).None?
    ensures AllDiffer([Part(name, d)] + ch[d]) && Part(name, d) !in ch
  {
    hide LowerAll;
    assert AllChildren(ch, d, ch[d]) && AllDiffer(ch[d]);
    ChildFound(ch[d], name);
    var kids := [Part(name, d)] + ch[d];
    forall i, j | 0 <= i < j < |kids| ensures Differ(kids[i], kids[j]) {
      assert kids[j] == ch[d][j - 1] && ch[d][j - 1] in ch[d];
      if i > 0 { assert kids[i] == ch[d][i - 1]; }
    }
  }

  lemma NodesKept(ch: map<Host, seq<Host>>, name: string, d: Host)
    requires TreeOk(ch) && d in ch && Part(name, d) !in ch
    ensures var ch' := AddNode(ch, name, d); var e := Part(name, d);
            && ch'.Keys == ch.Keys + {e} && ch'[d] == [e] + ch[d] && ch'[e] == []
            && (forall c :: c in ch && c != d ==> ch'[c] == ch[c])
            && (forall h :: h in ch' && h.Part? ==> h.parent in ch' && h in ch'[h.parent])
  {
    hide AllDiffer, AllChildren;
    var e := Part(name, d);
    var ch' := AddNode(ch, name, d);
    assert d != e;
    forall h | h in ch' && h.Part? ensures h.parent in ch' && h in ch'[h.parent] {
      if h != e && h.parent == d { assert h in ch[d]; }
    }
  }

  lemma AddNodeOk(ch: map<Host, seq<Host>>, name: string, d: Host)
    requires TreeOk(ch) && d in ch && Child(Kids(ch, d), name).None?
    ensures TreeOk(AddNode(ch, name, d)) && ch.Keys <= AddNode(ch, name, d).Keys
  {
    hide LowerAll, AllDiffer, AddNode;
    var e := Part(name, d);
    var ch' := AddNode(ch, name, d);
    NewChildDiffers(ch, name, d);
    NodesKept(ch, name, d);
    NoneDiffer();
    forall c | c in ch' ensures AllChildren(ch', c, ch'[c]) && AllDiffer(ch'[c]) {
      if c != e {
        assert AllChildren(ch, c, ch[c]) && AllDiffer(ch[c]);
        forall i | 0 <= i < |ch'[c]| ensures IsChild(ch', c, ch'[c][i]) {
          if c == d && i > 0 { assert ch'[c][i] == ch[d][i - 1]; }
        }
      }
    }
  }

  lemma NoneDiffer()
    ensures AllDiffer([])
  {
  }

  lemma EnterOk(ch: map<Host, seq<Host>>, name: string, d: Host)
    requires TreeOk(ch) && d in ch
    ensures var (ch', e) := Enter(ch, name, d);
            && TreeOk(ch') && e in ch' && ch.Keys <= ch'.Keys
            && e.Part? && e.parent == d && LowerAll(e.part) == LowerAll(name)
            && (ch' != ch ==> ch'.Keys == ch.Keys + {Part(name, d)})
  {
    hide LowerAll, AllDiffer;
    assert AllChildren(ch, d, ch[d]);
    ChildFound(ch[d], name);
    if Child(Kids(ch, d), name).None? { AddNodeOk(ch, name, d); }
  }

  lemma {:induction false} LowerLabelsAppend(a: seq<string>, b: seq<string>)
    ensures LowerLabels(a + b) == LowerLabels(a) + LowerLabels(b)
  {
    if a == [] {
      assert a + b == b;
    } else {
      assert (a + b)[1..] == a[1..] + b;
      LowerLabelsAppend(a[1..], b);
    }
  }

  /** Adding labels keeps the host tree in order and yields a node of exactly that name. */
  lemma {:induction false} AttachOk(ch: map<Host, seq<Host>>, d: Host, ls: seq<string>)
    requires TreeOk(ch) && d in ch
    ensures var (ch', h) := Attach(ch, d, ls);
            && TreeOk(ch') && h in ch' && ch.Keys <= ch'.Keys
            && LowerLabels(Labels(h)) == LowerLabels(ls) + LowerLabels(Labels(d))
            && (ls != [] ==> h.Part?)
    decreases |ls|
  {
    hide LowerAll, TreeOk, Enter;
    if ls != [] {
      var n := |ls| - 1;
      var (ch', e) := Enter(ch, ls[n], d);
      EnterOk(ch, ls[n], d);
      AttachOk(ch', e, ls[..n]);
      LowerStep(e);
      LowerLabelsAppend(ls[..n], [ls[n]]);
      assert ls[..n] + [ls[n]] == ls;
      assert LowerLabels([ls[n]]) == [LowerAll(ls[n])];
    }
  }

  /** A top-level part of this name. */
  predicate HasTop(ch: map<Host, seq<Host>>, name: string) {
    Root in ch && exists e :: e in ch[Root] && e.Part? && LowerAll(e.part) == LowerAll(name)
  }

  lemma EnterTop(ch: map<Host, seq<Host>>, name: string, d: Host)
    requires TreeOk(ch) && d in ch
    ensures var ch' := Enter(ch, name, d).0;
            && Root in ch' && (forall e :: e in ch[Root] ==> e in ch'[Root])
            && (d.Part? ==> ch'[Root] == ch[Root])
            && (d.Root? ==> HasTop(ch', name) && forall e :: e in ch'[Root] ==> e in ch[Root] || e == Part(name, Root))
  {
    hide LowerAll, TreeOk;
    RootIn(ch);
    ChildFound(Kids(ch, d), name) by { KidsParts(ch, d); }
    var ch' := Enter(ch, name, d).0;
    if d.Root? && Child(Kids(ch, d), name).None? { assert Part(name, Root) in ch'[Root]; }
  }

  lemma KidsParts(ch: map<Host, seq<Host>>, d: Host)
    requires TreeOk(ch) && d in ch
    ensures forall i :: 0 <= i < |ch[d]| ==> ch[d][i].Part?
  {
    assert AllChildren(ch, d, ch[d]);
  }

  /** Of the top-level parts none goes, the last label is one, and no other is new. */
  lemma {:induction false} AttachTop(ch: map<Host, seq<Host>>, d: Host, ls: seq<string>)
    requires TreeOk(ch) && d in ch && (d.Root? ==> ls != [])
    ensures var ch' := Attach(ch, d, ls).0;
            && Root in ch' && (forall e :: e in ch[Root] ==> e in ch'[Root])
            && (d.Part? ==> ch'[Root] == ch[Root])
            && (d.Root? ==> HasTop(ch', ls[|ls| - 1])
                            && forall e :: e in ch'[Root] ==> e in ch[Root] || e == Part(ls[|ls| - 1], Root))
    decreases |ls|
  {
    hide LowerAll, TreeOk, Enter, HasTop;
    RootIn(ch);
    if ls != [] {
      var n := |ls| - 1;
      var (ch', e) := Enter(ch, ls[n], d);
      EnterOk(ch, ls[n], d);
      EnterTop(ch, ls[n], d);
      AttachTop(ch', e, ls[..n]);
      if d.Root? { assert HasTop(Attach(ch, d, ls).0, ls[n]) by { TopKept(ch', Attach(ch, d, ls).0, ls[n]); } }
    }
  }

  lemma TopKept(ch: map<Host, seq<Host>>, ch': map<Host, seq<Host>>, name: string)
    requires HasTop(ch, name) && Root in ch' && forall e :: e in ch[Root] ==> e in ch'[Root]
    ensures HasTop(ch', name)
  {
  }

  lemma RootIn(ch: map<Host, seq<Host>>)
    requires TreeOk(ch)
    ensures Root in ch && forall e :: e in ch[Root] ==> e in ch && e.Part? && e.parent == Root
  {
    assert AllChildren(ch, Root, ch[Root]);
  }

  // ---------------------------------------------------------------- keys

  lemma {:induction false} LowerAllAt(s: string)
    ensures |LowerAll(s)| == |s| && forall i :: 0 <= i < |s| ==> LowerAll(s)[i] == Lower(s[i])
  {
    if s != [] { LowerAllAt(s[1..]); }
  }

  lemma LowerAllSlices(s: string, i: nat)
    requires i <= |s|
    ensures |LowerAll(s)| == |s|
    ensures LowerAll(s[..i]) == LowerAll(s)[..i] && LowerAll(s[i..]) == LowerAll(s)[i..]
    ensures i < |s| ==> LowerAll(s)[i] == Lower(s[i])
  {
    hide LowerAll, Lower;
    LowerAllAt(s);
    LowerAllAt(s[..i]);
    LowerAllAt(s[i..]);
  }

  lemma {:induction false} LowerKeepsDots(s: string, from: nat)
    requires from <= |s|
    ensures |LowerAll(s)| == |s| && S.IndexOf(LowerAll(s), '.', from) == S.IndexOf(s, '.', from)
    decreases |s| - from
  {
    LowerAllSlices(s, from);
    if from < |s| && s[from] != '.' { LowerKeepsDots(s, from + 1); }
  }

  lemma {:induction false} SplitLower(s: string)
    ensures LowerLabels(HostOrder.Split(s)) == HostOrder.Split(LowerAll(s))
    decreases |s|
  {
    hide LowerAll;
    var dot := S.IndexOf(s, '.', 0);
    LowerKeepsDots(s, 0);
    if dot < |s| {
      LowerAllSlices(s, dot);
      LowerAllSlices(s, dot + 1);
      SplitLower(s[dot + 1..]);
      assert HostOrder.Split(s)[1..] == HostOrder.Split(s[dot + 1..]);
    }
  }

  /** Two names are filed under one key exactly when they differ in case alone. */
  lemma KeyIsName(isIp: string -> bool, a: string, b: string)
    requires CaseBlind(isIp)
    ensures isIp(a) == isIp(b) && Key(isIp, a) == Key(isIp, b) <==> LowerAll(a) == LowerAll(b)
  {
    hide LowerAll, S.Split;
    SplitLower(a);
    SplitLower(b);
    S.JoinSplit(LowerAll(a), '.');
    S.JoinSplit(LowerAll(b), '.');
    assert LowerLabels([a]) == [LowerAll(a)] && LowerLabels([b]) == [LowerAll(b)];
    assert LowerAll(a) == LowerAll(b) ==> isIp(a) == isIp(b);
    assert [LowerAll(a)][0] == LowerAll(a) && [LowerAll(b)][0] == LowerAll(b);
  }

  /** The first label picks the same tree as the whole name, in any case. */
  lemma TreeAgrees(isIp: string -> bool, host: string, other: string)
    requires CaseBlind(isIp)
    ensures Plain(isIp, host) && !isIp(host) ==> TreeOf(isIp, HostOrder.Split(host)[0]) == TreeOf(isIp, host)
    ensures LowerAll(host) == LowerAll(other) ==> TreeOf(isIp, host) == TreeOf(isIp, other)
  {
    var l := HostOrder.Split(host)[0];
    if l != [] { assert l[0] == host[0]; }
    if host != [] { assert LowerAll(host)[0] == Lower(host[0]); }
    if other != [] { assert LowerAll(other)[0] == Lower(other[0]); }
  }

  // ---------------------------------------------------------------- the index reflects the database

  /** The node `x` stands in tree `i` for one of the added hosts. */
  predicate Filed(isIp: string -> bool, hosts: seq<string>, i: nat, x: Host) {
    exists k :: 0 <= k < |hosts| && Stands(isIp, hosts, k, i, x)
  }

  predicate Stands(isIp: string -> bool, hosts: seq<string>, k: nat, i: nat, x: Host)
    requires k < |hosts|
  {
    TreeOf(isIp, hosts[k]) == i && Key(isIp, hosts[k]) == LowerLabels(Labels(x)) && Indexed(isIp, hosts, k)
  }

  predicate Has(s: seq<Host>, key: seq<string>) {
    exists x :: x in s && LowerLabels(Labels(x)) == key
  }

  predicate TreeInv(isIp: string -> bool, hosts: seq<string>, ch: map<Host, seq<Host>>, i: nat, t: Tree) {
    && Balanced(t) && Sorted(InOrder(t))
    && forall x :: x in InOrder(t) ==> x in ch && x.Part? && Filed(isIp, hosts, i, x)
  }

  /** The part is the last label of one of the names. */
  predicate FromName(isIp: string -> bool, hosts: seq<string>, e: Host) {
    exists j :: 0 <= j < |hosts| && !isIp(hosts[j]) && e.Part? && LowerAll(Last(hosts[j])) == LowerAll(e.part)
  }

  /** The top-level parts are the last labels of names and the addresses in the index. */
  predicate TopsOk(isIp: string -> bool, hosts: seq<string>, ch: map<Host, seq<Host>>, addresses: Tree) {
    && Root in ch
    && (forall e :: e in ch[Root] ==> FromName(isIp, hosts, e) || e in InOrder(addresses))
    && (forall j :: 0 <= j < |hosts| && !isIp(hosts[j]) ==> HasTop(ch, Last(hosts[j])))
  }

  predicate IndexOk(isIp: string -> bool, hosts: seq<string>, db: Db) {
    && TreeOk(db.children) && |db.trees| == TREES
    && (forall i :: 0 <= i < TREES ==> TreeInv(isIp, hosts, db.children, i, db.trees[i]))
    && (forall k :: 0 <= k < |hosts| && Indexed(isIp, hosts, k) ==>
          Has(InOrder(db.trees[TreeOf(isIp, hosts[k])]), Key(isIp, hosts[k])))
    && TopsOk(isIp, hosts, db.children, db.trees[ST_IP])
  }

  lemma IndexedGrows(isIp: string -> bool, hosts: seq<string>, host: string, k: nat)
    requires k < |hosts|
    ensures (hosts + [host])[k] == hosts[k] && (Indexed(isIp, hosts + [host], k) <==> Indexed(isIp, hosts, k))
  {
    hide LowerAll, Last;
    var all := hosts + [host];
    assert forall j :: 0 <= j < |hosts| ==> all[j] == hosts[j];
  }

  lemma FiledGrows(isIp: string -> bool, hosts: seq<string>, host: string, i: nat, x: Host)
    requires Filed(isIp, hosts, i, x) || Stands(isIp, hosts + [host], |hosts|, i, x)
    ensures Filed(isIp, hosts + [host], i, x)
  {
    hide TreeOf, Key, Indexed;
    var all := hosts + [host];
    if Filed(isIp, hosts, i, x) {
      var k :| 0 <= k < |hosts| && Stands(isIp, hosts, k, i, x);
      IndexedGrows(isIp, hosts, host, k);
      assert Stands(isIp, all, k, i, x);
    }
  }

  lemma TreeInvGrows(isIp: string -> bool, hosts: seq<string>, host: string,
                     ch: map<Host, seq<Host>>, ch': map<Host, seq<Host>>, i: nat, t: Tree)
    requires TreeInv(isIp, hosts, ch, i, t) && ch.Keys <= ch'.Keys
    ensures TreeInv(isIp, hosts + [host], ch', i, t)
  {
    hide Filed, Sorted, Balanced;
    forall x | x in InOrder(t) ensures x in ch' && Filed(isIp, hosts + [host], i, x) {
      assert x in ch.Keys;
      FiledGrows(isIp, hosts, host, i, x);
    }
  }

  /** Indexing the node of `host` in its tree. */
  lemma IndexedInv(isIp: string -> bool, hosts: seq<string>, host: string,
                   ch: map<Host, seq<Host>>, ch': map<Host, seq<Host>>, t: Tree, h: Host)
    requires TreeInv(isIp, hosts, ch, TreeOf(isIp, host), t) && ch.Keys <= ch'.Keys
    requires Indexed(isIp, hosts + [host], |hosts|)
    requires h in ch' && h.Part? && LowerLabels(Labels(h)) == Key(isIp, host)
    ensures TreeInv(isIp, hosts + [host], ch', TreeOf(isIp, host), Insert(t, h))
    ensures Has(InOrder(Insert(t, h)), Key(isIp, host))
    ensures forall x :: x in InOrder(t) ==> x in InOrder(Insert(t, h))
    ensures TreeOk(ch') ==> h in InOrder(Insert(t, h))
  {
    hide Filed, Sorted, Balanced, Insert, Placed, Key, TreeOf, CompareLabels, LowerLabels, Indexed;
    var i := TreeOf(isIp, host);
    TreeInvGrows(isIp, hosts, host, ch, ch', i, t);
    InsertBalanced(t, h);
    InsertPlaces(t, h);
    PlacedSorted(InOrder(t), h);
    forall x | x in InOrder(Insert(t, h)) ensures x in ch' && x.Part? && Filed(isIp, hosts + [host], i, x) {
      if x == h { FiledGrows(isIp, hosts, host, i, x); }
    }
    var x :| x in InOrder(Insert(t, h)) && Compare(x, h) == 0;
    CompareZero(Labels(x), Labels(h));
    if TreeOk(ch') { NamesUnique(ch', x, h); }
  }

  /** All that an addition has to show, for either branch of it, of the trees. */
  lemma AddedOk(isIp: string -> bool, hosts: seq<string>, host: string, db: Db, ch': map<Host, seq<Host>>, h: Host)
    requires IndexOk(isIp, hosts, db) && TreeOk(ch') && db.children.Keys <= ch'.Keys
    requires Indexed(isIp, hosts + [host], |hosts|)
    requires h in ch' && h.Part? && LowerLabels(Labels(h)) == Key(isIp, host)
    requires TopsOk(isIp, hosts + [host], ch', IndexHost(db.trees, TreeOf(isIp, host), h)[ST_IP])
    ensures IndexOk(isIp, hosts + [host], Db(ch', IndexHost(db.trees, TreeOf(isIp, host), h)))
  {
    hide Sorted, Balanced, Insert, Key, LowerLabels, TreeInv, TreeOk, Has, Indexed, TopsOk;
    var i := TreeOf(isIp, host);
    var ch, trees := db.children, db.trees;
    var trees' := IndexHost(trees, i, h);
    var all := hosts + [host];
    IndexedInv(isIp, hosts, host, ch, ch', trees[i], h);
    forall j | 0 <= j < TREES ensures TreeInv(isIp, all, ch', j, trees'[j]) {
      if j != i { TreeInvGrows(isIp, hosts, host, ch, ch', j, trees[j]); }
    }
    forall k | 0 <= k < |all| && Indexed(isIp, all, k)
      ensures Has(InOrder(trees'[TreeOf(isIp, all[k])]), Key(isIp, all[k]))
    {
      if k < |hosts| {
        IndexedGrows(isIp, hosts, host, k);
        HasGrows(InOrder(trees[TreeOf(isIp, hosts[k])]), InOrder(trees'[TreeOf(isIp, hosts[k])]), Key(isIp, hosts[k]));
      }
    }
  }

  lemma HasGrows(s: seq<Host>, s': seq<Host>, key: seq<string>)
    requires Has(s, key) && forall x :: x in s ==> x in s'
    ensures Has(s', key)
  {
  }

  lemma FromNameGrows(isIp: string -> bool, hosts: seq<string>, host: string, e: Host)
    requires FromName(isIp, hosts, e) || (!isIp(host) && e.Part? && LowerAll(Last(host)) == LowerAll(e.part))
    ensures FromName(isIp, hosts + [host], e)
  {
    hide LowerAll, Last;
    var all := hosts + [host];
    if FromName(isIp, hosts, e) {
      var j :| 0 <= j < |hosts| && !isIp(hosts[j]) && LowerAll(Last(hosts[j])) == LowerAll(e.part);
      assert all[j] == hosts[j];
    } else {
      assert all[|hosts|] == host;
    }
  }

  /** The top-level parts after an addition. */
  lemma TopsGrow(isIp: string -> bool, hosts: seq<string>, host: string,
                 ch: map<Host, seq<Host>>, ch': map<Host, seq<Host>>, t: Tree, t': Tree)
    requires TopsOk(isIp, hosts, ch, t) && Root in ch' && (forall e :: e in ch[Root] ==> e in ch'[Root])
    requires forall x :: x in InOrder(t) ==> x in InOrder(t')
    requires !isIp(host) ==> HasTop(ch', Last(host))
    requires forall e :: e in ch'[Root] && e !in ch[Root] ==>
               e in InOrder(t') || (!isIp(host) && e.Part? && LowerAll(Last(host)) == LowerAll(e.part))
    ensures TopsOk(isIp, hosts + [host], ch', t')
  {
    hide LowerAll, Last, FromName, HasTop, InOrder;
    var all := hosts + [host];
    forall e | e in ch'[Root] ensures FromName(isIp, all, e) || e in InOrder(t') {
      if e !in InOrder(t') { FromNameGrows(isIp, hosts, host, e); }
    }
    forall j | 0 <= j < |all| && !isIp(all[j]) ensures HasTop(ch', Last(all[j])) {
      if j < |hosts| {
        assert all[j] == hosts[j];
        TopKept(ch, ch', Last(hosts[j]));
      }
    }
  }

  /** An address that is no top-level part was the last label of no name. */
  lemma NoTopClear(isIp: string -> bool, hosts: seq<string>, host: string, ch: map<Host, seq<Host>>, t: Tree)
    requires TopsOk(isIp, hosts, ch, t) && TreeOk(ch) && Child(Kids(ch, Root), host).None?
    ensures Clear(isIp, hosts + [host], |hosts|)
  {
    hide LowerAll, Last, TreeOk;
    KidsParts(ch, Root);
    ChildFound(ch[Root], host);
    var all := hosts + [host];
    forall j | 0 <= j < |hosts| && !isIp(all[j]) ensures LowerAll(Last(all[j])) != LowerAll(host) {
      assert all[j] == hosts[j] && HasTop(ch, Last(hosts[j]));
    }
  }

  /** Adding an address that is a top-level part already changes nothing, and if it was the
      last label of no name the index has it. */
  lemma KnownOk(isIp: string -> bool, hosts: seq<string>, host: string, db: Db, e: Host)
    requires IndexOk(isIp, hosts, db) && isIp(host)
    requires e in db.children[Root] && e.Part? && e.parent.Root? && LowerAll(e.part) == LowerAll(host)
    ensures IndexOk(isIp, hosts + [host], db)
    ensures LowerLabels(Labels(e)) == Key(isIp, host)
  {
    hide Sorted, Balanced, TreeInv, TreeOk, LowerAll, Last;
    var all := hosts + [host];
    var ch := db.children;
    LowerStep(e);
    RootKey();
    assert LowerLabels([host]) == [LowerAll(host)] == LowerLabels(Labels(e));
    TopsGrow(isIp, hosts, host, ch, ch, db.trees[ST_IP], db.trees[ST_IP]);
    forall j | 0 <= j < TREES ensures TreeInv(isIp, all, ch, j, db.trees[j]) {
      TreeInvGrows(isIp, hosts, host, ch, ch, j, db.trees[j]);
    }
    forall k | 0 <= k < |all| && Indexed(isIp, all, k)
      ensures Has(InOrder(db.trees[TreeOf(isIp, all[k])]), Key(isIp, all[k]))
    {
      if k < |hosts| {
        IndexedGrows(isIp, hosts, host, k);
      } else {
        ClearIndexed(isIp, hosts, host, e);
        assert e in InOrder(db.trees[ST_IP]);
      }
    }
  }

  lemma ClearIndexed(isIp: string -> bool, hosts: seq<string>, host: string, e: Host)
    requires Clear(isIp, hosts + [host], |hosts|) && e.Part? && LowerAll(e.part) == LowerAll(host)
    ensures !FromName(isIp, hosts, e)
  {
    hide LowerAll, Last;
    var all := hosts + [host];
    assert forall j :: 0 <= j < |hosts| ==> all[j] == hosts[j];
  }

  /** One addition keeps the index and returns the node of that name. */
  lemma AddOk(isIp: string -> bool, hosts: seq<string>, db: Db, host: string)
    requires CaseBlind(isIp) && IndexOk(isIp, hosts, db) && Plain(isIp, host)
    ensures var (db', h) := Add(isIp, db, host);
            && IndexOk(isIp, hosts + [host], db')
            && db.children.Keys <= db'.children.Keys
            && h in db'.children && LowerLabels(Labels(h)) == Key(isIp, host)
  {
    hide IndexOk, CaseBlind, Plain;
    if isIp(host) { AddAddressOk(isIp, hosts, db, host); } else { AddNameOk(isIp, hosts, db, host); }
  }

  lemma AddAddressOk(isIp: string -> bool, hosts: seq<string>, db: Db, host: string)
    requires IndexOk(isIp, hosts, db) && isIp(host)
    ensures var (db', h) := Add(isIp, db, host);
            && IndexOk(isIp, hosts + [host], db')
            && db.children.Keys <= db'.children.Keys
            && h in db'.children && LowerLabels(Labels(h)) == Key(isIp, host)
  {
    hide TreeInv, Has, TreeOk, LowerAll, LowerLabels, HostOrder.Split, TopsOk, Clear, AddNode, Insert;
    var ch := db.children;
    RootIn(ch);
    EnterOk(ch, host, Root);
    EnterTop(ch, host, Root);
    var (ch', h) := Enter(ch, host, Root);
    KidsParts(ch, Root);
    ChildFound(ch[Root], host);
    if Child(Kids(ch, Root), host).Some? {
      KnownOk(isIp, hosts, host, db, h);
    } else {
      NoTopClear(isIp, hosts, host, ch, db.trees[ST_IP]);
      assert LowerLabels(Labels(h)) == Key(isIp, host) by { TopKey(isIp, host); }
      IndexedInv(isIp, hosts, host, ch, ch', db.trees[ST_IP], h);
      TopsGrow(isIp, hosts, host, ch, ch', db.trees[ST_IP], Insert(db.trees[ST_IP], h));
      AddedOk(isIp, hosts, host, db, ch', h);
    }
  }

  lemma AddNameOk(isIp: string -> bool, hosts: seq<string>, db: Db, host: string)
    requires CaseBlind(isIp) && IndexOk(isIp, hosts, db) && Plain(isIp, host) && !isIp(host)
    ensures var (db', h) := Add(isIp, db, host);
            && IndexOk(isIp, hosts + [host], db')
            && db.children.Keys <= db'.children.Keys
            && h in db'.children && LowerLabels(Labels(h)) == Key(isIp, host)
  {
    hide TreeInv, Has, TreeOk, LowerAll, LowerLabels, HostOrder.Split, TopsOk, Clear, Insert, HasTop;
    var ch := db.children;
    RootIn(ch);
    var ls := HostOrder.Split(host);
    var (ch', h) := Attach(ch, Root, ls);
    AttachOk(ch, Root, ls);
    AttachTop(ch, Root, ls);
    assert LowerLabels(Labels(Root)) == [] by { RootKey(); }
    TreeAgrees(isIp, host, host);
    var i := TreeOf(isIp, host);
    assert i != ST_IP by { TreeIp(isIp, host); }
    TopsGrow(isIp, hosts, host, ch, ch', db.trees[ST_IP], db.trees[ST_IP]);
    AddedOk(isIp, hosts, host, db, ch', h);
  }

  lemma TopKey(isIp: string -> bool, host: string)
    requires isIp(host)
    ensures LowerLabels(Labels(Part(host, Root))) == Key(isIp, host)
  {
    assert Labels(Part(host, Root)) == [host];
  }

  lemma RootKey()
    ensures LowerLabels(Labels(Root)) == []
  {
  }

  lemma EmptyOk(isIp: string -> bool)
    ensures IndexOk(isIp, [], EmptyDb())
  {
    forall i | 0 <= i < TREES ensures TreeInv(isIp, [], EmptyDb().children, i, EmptyDb().trees[i]) {
      assert InOrder(Empty) == [];
    }
  }

  /** Over every sequence of additions the index reflects the database. */
  lemma {:induction false} RunOk(isIp: string -> bool, hosts: seq<string>)
    requires CaseBlind(isIp) && AllPlain(isIp, hosts)
    ensures IndexOk(isIp, hosts, Run(isIp, hosts))
  {
    hide CaseBlind, Plain, Add, IndexOk;
    if hosts == [] {
      EmptyOk(isIp);
    } else {
      var n := |hosts| - 1;
      RunOk(isIp, hosts[..n]);
      AddOk(isIp, hosts[..n], Run(isIp, hosts[..n]), hosts[n]);
      assert hosts[..n] + [hosts[n]] == hosts;
    }
  }

  /** The node that the k-th addition returned. */
  function Returned(isIp: string -> bool, hosts: seq<string>, k: nat): Host
    requires k < |hosts|
  {
    Add(isIp, Run(isIp, hosts[..k]), hosts[k]).1
  }

  lemma {:induction false} ReturnedStays(isIp: string -> bool, hosts: seq<string>, k: nat)
    requires CaseBlind(isIp) && AllPlain(isIp, hosts) && k < |hosts|
    ensures Returned(isIp, hosts, k) in Run(isIp, hosts).children
    ensures LowerLabels(Labels(Returned(isIp, hosts, k))) == Key(isIp, hosts[k])
    decreases |hosts|
  {
    hide CaseBlind, Plain, Add, IndexOk, Key, LowerLabels;
    var n := |hosts| - 1;
    var before := hosts[..n];
    RunOk(isIp, before);
    AddOk(isIp, before, Run(isIp, before), hosts[n]);
    if k < n {
      assert before[..k] == hosts[..k] && before[k] == hosts[k];
      ReturnedStays(isIp, before, k);
      assert Returned(isIp, hosts, k) in Run(isIp, before).children.Keys;
    }
  }

  /** Main result: after any sequence of additions, looking `host` up in the tree picked from
      its whole string finds a node exactly if the host was added, in whatever case, and, if
      it is an address, at a time when it was the last label of no name before it.  The node
      is the one that every addition of the host returned. */
  lemma LookupReflectsRun(isIp: string -> bool, hosts: seq<string>, host: string, r: Option<Host>)
    requires CaseBlind(isIp) && AllPlain(isIp, hosts)
    requires IsLookup(InOrder(Run(isIp, hosts).trees[TreeOf(isIp, host)]),
                      if isIp(host) then [host] else HostOrder.Split(host), r)
    ensures r.Some? <==> exists k :: 0 <= k < |hosts| && LowerAll(hosts[k]) == LowerAll(host) && Indexed(isIp, hosts, k)
    ensures r.Some? ==> forall k :: 0 <= k < |hosts| && LowerAll(hosts[k]) == LowerAll(host) ==>
                                      r.value == Returned(isIp, hosts, k)
  {
    hide Run, Returned, LowerLabels, LowerAll, HostOrder.Split, TreeOf, CaseBlind, Plain;
    hide TreeOk, Sorted, Balanced, Indexed, TopsOk;
    var db := Run(isIp, hosts);
    RunOk(isIp, hosts);
    var i := TreeOf(isIp, host);
    assert TreeInv(isIp, hosts, db.children, i, db.trees[i]);
    if r.Some? {
      var k :| 0 <= k < |hosts| && Stands(isIp, hosts, k, i, r.value);
      TreeIp(isIp, hosts[k]);
      TreeIp(isIp, host);
      KeyIsName(isIp, hosts[k], host);
    }
    forall k | 0 <= k < |hosts| && LowerAll(hosts[k]) == LowerAll(host)
      ensures Indexed(isIp, hosts, k) ==> r.Some?
      ensures r.Some? ==> r.value == Returned(isIp, hosts, k)
    {
      KeyIsName(isIp, hosts[k], host);
      TreeAgrees(isIp, hosts[k], host);
      if Indexed(isIp, hosts, k) {
        assert Has(InOrder(db.trees[TreeOf(isIp, hosts[k])]), Key(isIp, hosts[k]));
      }
      ReturnedStays(isIp, hosts, k);
      if r.Some? { NamesUnique(db.children, r.value, Returned(isIp, hosts, k)); }
    }
  }

  lemma TreeIp(isIp: string -> bool, host: string)
    ensures TreeOf(isIp, host) == ST_IP <==> isIp(host)
  {
  }

  /** What is used of the test for addresses in the example below. */
  predicate LinkLocal(isIp: string -> bool) {
    isIp("[fe80::1]") && !isIp("a.[fe80::1]") && !isIp("a")
  }

  lemma ShadowingName()
    ensures HostOrder.Split("a.[fe80::1]") == ["a", "[fe80::1]"]
  {
    var name := "a.[fe80::1]";
    assert S.IndexOf(name, '.', 0) == 1;
    assert name[..1] == "a" && name[2..] == "[fe80::1]";
    assert S.IndexOf("[fe80::1]", '.', 0) == 9;
    assert HostOrder.Split("[fe80::1]") == ["[fe80::1]"];
  }

  /** An address that is the last label of a name added before it is found in the host tree,
      and so never indexed: its lookup finds nothing. */
  lemma AddressShadowed(isIp: string -> bool, r: Option<Host>)
    requires CaseBlind(isIp) && LinkLocal(isIp)
    requires IsLookup(InOrder(Run(isIp, ["a.[fe80::1]", "[fe80::1]"]).trees[ST_IP]), ["[fe80::1]"], r)
    ensures AllPlain(isIp, ["a.[fe80::1]", "[fe80::1]"]) && r == None
  {
    hide Run, LowerAll, HostOrder.Split, IsLookup;
    var hosts := ["a.[fe80::1]", "[fe80::1]"];
    ShadowingName();
    assert Last(hosts[0]) == hosts[1];
    assert !Clear(isIp, hosts, 1);
    LowerAllAt(hosts[0]);
    LowerAllAt(hosts[1]);
    assert LowerAll(hosts[0]) != LowerAll(hosts[1]);
    LookupReflectsRun(isIp, hosts, hosts[1], r);
  }

  // ---------------------------------------------------------------- the operations of the source

  /** Index of the last '.', or -1: strrchr. */
  method LastDot(s: string) returns (i: int)
    ensures -1 <= i < |s|
    ensures i == -1 ==> HostOrder.Split(s) == [s]
    ensures i >= 0 ==> HostOrder.Split(s) == HostOrder.Split(s[..i]) + [s[i + 1..]]
  {
    i := |s| - 1;
    while i >= 0 && s[i] != '.'
      invariant -1 <= i < |s|
      invariant '.' !in s[i + 1..]
    {
      assert s[i..] == [s[i]] + s[i + 1..];
      i := i - 1;
    }
    if i >= 0 { SplitLast(s, i); } else { assert s[0..] == s; S.SplitOnce(s, '.'); }
  }

  lemma NoDotSplit(s: string)
    requires NoDot(s)
    ensures HostOrder.Split(s) == [s]
  {
  }

  lemma {:induction false} SplitLast(s: string, i: nat)
    requires i < |s| && s[i] == '.' && '.' !in s[i + 1..]
    ensures HostOrder.Split(s) == HostOrder.Split(s[..i]) + [s[i + 1..]]
    decreases |s|
  {
    var dot := S.IndexOf(s, '.', 0);
    FirstDot(s, i);
    if dot == i {
      NoDotSplit(s[i + 1..]);
      NoDotSplit(s[..i]);
    } else {
      var t := s[dot + 1..];
      var j := i - dot - 1;
      assert t[j] == '.' && t[j + 1..] == s[i + 1..] && t[..j] == s[..i][dot + 1..];
      SplitLast(t, j);
      assert s[..i][..dot] == s[..dot];
    }
  }

  /** The first dot is no later than any dot, and cutting after a later dot keeps it. */
  lemma FirstDot(s: string, i: nat)
    requires i < |s| && s[i] == '.'
    ensures var dot := S.IndexOf(s, '.', 0);
            dot <= i && NoDot(s[..dot]) && S.IndexOf(s[..i], '.', 0) == dot
  {
    var dot := S.IndexOf(s, '.', 0);
    forall j | 0 <= j < dot ensures s[j] != '.' {
      assert s[j] == s[0..dot][j];
    }
    S.IndexOfIs(s[..i], '.', 0, dot);
  }

  class UrlDb {
    const isIp: string -> bool
    var children: map<Host, seq<Host>>
    var trees: seq<Tree>

    ghost function View(): Db
      reads this
    {
      Db(children, trees)
    }

    constructor (isIp: string -> bool)
      ensures this.isIp == isIp && View() == EmptyDb()
    {
      this.isIp := isIp;
      children, trees := map[Root := []], seq(TREES, _ => Empty);
    }

    /** The loop over a list of children. */
    method FindChild(d: Host, name: string) returns (e: Option<Host>)
      ensures e == Child(Kids(children, d), name)
    {
      var kids := if d in children then children[d] else [];
      var i := 0;
      while i < |kids|
        invariant 0 <= i <= |kids| && Child(kids[i..], name) == Child(kids, name)
      {
        if kids[i].Part? && CaseCompare(name, kids[i].part) == 0 { return Some(kids[i]); }
        assert kids[i..][1..] == kids[i + 1..];
        i := i + 1;
      }
      e := None;
    }

    /** The child with this label, added at the head of the list if there is none. */
    method EnterChild(d: Host, name: string) returns (e: Host)
      modifies this`children
      ensures (children, e) == Enter(old(children), name, d)
    {
      var found := FindChild(d, name);
      match found
      case Some(f) => e := f;
      case None =>
        e := Part(name, d);
        children := AddNode(children, name, d);
    }

    /** urldb_add_host. */
    method AddHost(host: string) returns (d: Host)
      requires |trees| == TREES
      modifies this
      ensures (View(), d) == Add(isIp, old(View()), host)
    {
      hide HostOrder.Split, Insert, Enter;
      d := Root;
      if isIp(host) {
        var e := FindChild(d, host);
        if e.Some? { return e.value; }
        d := Part(host, Root);
        children := AddNode(children, host, Root);
        trees := trees[ST_IP := Insert(trees[ST_IP], d)];
        return;
      }
      var buf := if |host| > MAX_HOST then host[..MAX_HOST] else host;
      ghost var ls := HostOrder.Split(buf);
      while true
        invariant trees == old(trees)
        invariant Attach(children, d, HostOrder.Split(buf)) == Attach(old(children), Root, ls)
        invariant HostOrder.Split(buf)[0] == ls[0]
        decreases |buf|
      {
        var part := LastDot(buf);
        if part == -1 {
          d := EnterChild(d, buf);
          var r := TreeOf(isIp, buf);
          trees := trees[r := Insert(trees[r], d)];
          return;
        }
        var rest := HostOrder.Split(buf[..part]);
        assert HostOrder.Split(buf)[..|rest|] == rest;
        d := EnterChild(d, buf[part + 1..]);
        buf := buf[..part];
      }
    }

    /** The lookup of urldb_find_url: pick the tree from the whole host, then search it. */
    method FindHost(host: string) returns (r: Option<Host>)
      requires |trees| == TREES && Sorted(InOrder(trees[TreeOf(isIp, host)]))
      requires forall h :: h in InOrder(trees[TreeOf(isIp, host)]) ==> h.Part? && (isIp(host) ==> h.parent.Root?)
      ensures IsLookup(InOrder(trees[TreeOf(isIp, host)]), if isIp(host) then [host] else HostOrder.Split(host), r)
    {
      r := Find(trees[TreeOf(isIp, host)], host, isIp(host));
    }
  }

  lemma TopName(h: Host, host: string)
    requires h.Part? && LowerLabels(Labels(h)) == LowerLabels([host])
    ensures h.parent.Root?
  {
    LowerStep(h);
    if h.parent.Part? { LowerStep(h.parent); }
    assert |LowerLabels([host])| == 1;
  }

  /** What a lookup asks of its tree holds after every run. */
  lemma RunSearchable(isIp: string -> bool, hosts: seq<string>, host: string)
    requires CaseBlind(isIp) && AllPlain(isIp, hosts)
    ensures var t := Run(isIp, hosts).trees[TreeOf(isIp, host)];
            && Sorted(InOrder(t))
            && forall h :: h in InOrder(t) ==> h.Part? && (isIp(host) ==> h.parent.Root?)
  {
    hide Run, Sorted, TreeOf, TreeOk, LowerLabels, Balanced, CaseBlind, Plain, Indexed, TopsOk;
    RunOk(isIp, hosts);
    var db := Run(isIp, hosts);
    var i := TreeOf(isIp, host);
    assert TreeInv(isIp, hosts, db.children, i, db.trees[i]);
    TreeIp(isIp, host);
    forall h | h in InOrder(db.trees[i]) && isIp(host) ensures h.parent.Root? {
      var k :| 0 <= k < |hosts| && Stands(isIp, hosts, k, i, h);
      TreeIp(isIp, hosts[k]);
      TopName(h, hosts[k]);
    }
  }
}
