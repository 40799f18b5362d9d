/** The in-place morph of dashboard/dom.js over a mutable tree of nodes. The template side
    is only ever read, so it stays a value (DomTree.Tree). `calls` counts the mutating DOM
    calls a method makes: attributes set or removed, text assigned, nodes inserted,
    appended, replaced or removed. */
module DomMorph {
  import opened DomTree
  import opened DomList
  import opened Wrappers

  /** For each row the index of the old node its key names, if any. */
  ghost function Plan(os: seq<Tree>, ns: seq<Tree>): (plan: seq<Option<nat>>)
    ensures |plan| == |ns| && forall j :: 0 <= j < |ns| ==> plan[j] == Match(os, ns, j)
  {
    seq(|ns|, j requires 0 <= j < |ns| => Match(os, ns, j))
  }

  /** The keys of the first `n` rows. */
  ghost function KeysOf(ns: seq<Tree>, n: nat): set<string>
    requires n <= |ns|
  {
    if n == 0 then {}
    else KeysOf(ns, n - 1) + if KEY_ATTR in ns[n - 1].attrs then {ns[n - 1].attrs[KEY_ATTR]} else {}
  }

  lemma {:induction false} KeysOfMembers(ns: seq<Tree>, n: nat, key: string)
    requires n <= |ns|
    ensures key in KeysOf(ns, n) <==> exists j :: 0 <= j < n && HasKey(ns[j], key)
  {
    if n > 0 {
      KeysOfMembers(ns, n - 1, key);
    }
  }

  /** The fixed data of one keyed walk: the rows, the old nodes and the trees they show, the
      plan, and the trees wanted. */
  datatype Walk = Walk(ns: seq<Tree>, nodes: seq<Node>, os: seq<Tree>, plan: seq<Option<nat>>, want: seq<Tree>)
  {
    ghost predicate Sized() {
      |plan| == |want| == |ns| && |nodes| == |os|
    }
  }

  /** How far a walk has come: the final prefix, the nodes created, the trees the children show, and
      the mutating calls made. */
  datatype Stage = Stage(placed: seq<Node>, more: set<Node>, shown: map<Node, Tree>, calls: nat)

  /** Row `j` of the plan is sound: the Map holds the planned node under the row's key, and no
      earlier row is planned for it. */
  ghost predicate RowOk(w: Walk, byKey: map<string, Node>, j: nat)
    requires w.Sized() && j < |w.ns|
  {
    && w.ns[j].kind == Element && KEY_ATTR in w.ns[j].attrs
    && match w.plan[j]
       case Some(k) =>
         && k < |w.os| && w.plan[j] !in w.plan[..j] && w.nodes[k].kind == Element
         && KeysOk(w.os[k], w.ns[j]) && w.want[j] == Morph(w.os[k], w.ns[j])
         && w.ns[j].attrs[KEY_ATTR] in byKey && byKey[w.ns[j].attrs[KEY_ATTR]] == w.nodes[k]
       case None => w.want[j] == Copy(w.ns[j]) && w.ns[j].attrs[KEY_ATTR] !in byKey
  }

  ghost predicate RowsOk(w: Walk, byKey: map<string, Node>, n: nat)
    requires w.Sized() && n <= |w.ns|
  {
    n == 0 || (RowsOk(w, byKey, n - 1) && RowOk(w, byKey, n - 1))
  }

  lemma {:induction false} RowsOkAt(w: Walk, byKey: map<string, Node>, n: nat, j: nat)
    requires w.Sized() && j < n <= |w.ns| && RowsOk(w, byKey, n)
    ensures RowOk(w, byKey, j)
  {
    if j < n - 1 {
      RowsOkAt(w, byKey, n - 1, j);
    }
  }

  /** Row `j` is held by its planned node, or by one of the nodes created, and shows what it should. */
  ghost predicate RowDone(w: Walk, placed: seq<Node>, more: set<Node>, shown: map<Node, Tree>, j: nat)
    requires w.Sized() && j < |placed| <= |w.ns|
  {
    && placed[j] in shown && shown[placed[j]] == w.want[j]
    && match w.plan[j]
       case Some(k) => k < |w.nodes| && placed[j] == w.nodes[k]
       case None => placed[j] in more && placed[j] !in w.nodes
  }

  ghost predicate RowsDone(w: Walk, placed: seq<Node>, more: set<Node>, shown: map<Node, Tree>, n: nat)
    requires w.Sized() && n <= |placed| <= |w.ns|
  {
    n == 0 || (RowsDone(w, placed, more, shown, n - 1) && RowDone(w, placed, more, shown, n - 1))
  }

  lemma {:induction false} RowsDoneAt(w: Walk, placed: seq<Node>, more: set<Node>, shown: map<Node, Tree>, n: nat, j: nat)
    requires w.Sized() && j < n <= |placed| <= |w.ns| && RowsDone(w, placed, more, shown, n)
    ensures RowDone(w, placed, more, shown, j)
  {
    if j < n - 1 {
      RowsDoneAt(w, placed, more, shown, n - 1, j);
    }
  }

  /** Placing one more node leaves the rows before it done. */
  lemma {:induction false} RowsStayDone(w: Walk, placed: seq<Node>, more: set<Node>, shown: map<Node, Tree>, n: nat,
                                        x: Node, gained: set<Node>, t: Tree)
    requires w.Sized() && n <= |placed| < |w.ns| && x !in placed && RowsDone(w, placed, more, shown, n)
    ensures RowsDone(w, placed + [x], more + gained, shown[x := t], n)
  {
    if n > 0 {
      RowsStayDone(w, placed, more, shown, n - 1, x, gained, t);
      assert placed[n - 1] in placed;
    }
  }

  lemma RowJoins(w: Walk, placed: seq<Node>, more: set<Node>, shown: map<Node, Tree>, x: Node, gained: set<Node>)
    requires w.Sized() && |placed| < |w.ns| && x !in placed && RowsDone(w, placed, more, shown, |placed|)
    requires match w.plan[|placed|]
             case Some(k) => k < |w.nodes| && x == w.nodes[k]
             case None => x in gained && x !in w.nodes
    ensures RowsDone(w, placed + [x], more + gained, shown[x := w.want[|placed|]], |placed| + 1)
  {
    RowsStayDone(w, placed, more, shown, |placed|, x, gained, w.want[|placed|]);
  }

  lemma OthersStay(shown: map<Node, Tree>, start: map<Node, Tree>, placed: seq<Node>, x: Node, t: Tree)
    requires shown - Members(placed) == start - Members(placed)
    ensures shown[x := t] - Members(placed + [x]) == start - Members(placed + [x])
  {
    assert Members(placed + [x]) == Members(placed) + {x};
    var a, b := shown - Members(placed), start - Members(placed);
    assert shown[x := t] - Members(placed + [x]) == a - {x};
    assert start - Members(placed + [x]) == b - {x};
  }

  /** Everything the walk may rely on at row `i`. */
  ghost predicate Ready(w: Walk, byKey: map<string, Node>, start: map<Node, Tree>, same: bool, i: nat)
    requires w.Sized() && i < |w.ns|
  {
    && RowOk(w, byKey, i)
    && (match w.plan[i] case Some(k) => w.nodes[k] in start && start[w.nodes[k]] == w.os[k] case None => true)
    && (same ==> i < |w.os| && w.plan[i] == Some(i) && w.want[i] == w.os[i])
  }

  /** The walk may rely on everything at each of the first n rows. */
  ghost predicate AllReady(w: Walk, byKey: map<string, Node>, start: map<Node, Tree>, same: bool, n: nat)
    requires w.Sized() && n <= |w.ns|
  {
    n == 0 || (AllReady(w, byKey, start, same, n - 1) && Ready(w, byKey, start, same, n - 1))
  }

  lemma {:induction false} AllReadyAt(w: Walk, byKey: map<string, Node>, start: map<Node, Tree>, same: bool, n: nat, i: nat)
    requires w.Sized() && i < n <= |w.ns| && AllReady(w, byKey, start, same, n)
    ensures Ready(w, byKey, start, same, i)
  {
    if i < n - 1 {
      AllReadyAt(w, byKey, start, same, n - 1, i);
    }
  }

  lemma {:induction false} RowsReady(w: Walk, byKey: map<string, Node>, start: map<Node, Tree>, same: bool, n: nat)
    requires w.Sized() && n <= |w.ns| && RowsOk(w, byKey, |w.ns|) && StartsAs(w, start, |w.os|)
    requires same ==> |w.os| == |w.ns| && SameRows(w, |w.ns|)
    ensures AllReady(w, byKey, start, same, n)
  {
    if n > 0 {
      RowsReady(w, byKey, start, same, n - 1);
      RowReady(w, byKey, start, same, n - 1);
    }
  }

  lemma RowReady(w: Walk, byKey: map<string, Node>, start: map<Node, Tree>, same: bool, i: nat)
    requires w.Sized() && i < |w.ns| && RowsOk(w, byKey, |w.ns|) && StartsAs(w, start, |w.os|)
    requires same ==> |w.os| == |w.ns| && SameRows(w, |w.ns|)
    ensures Ready(w, byKey, start, same, i)
  {
    RowsOkAt(w, byKey, |w.ns|, i);
    if w.plan[i].Some? {
      StartsAsAt(w, start, |w.os|, w.plan[i].value);
    }
    if same {
      SameRowsAt(w, |w.ns|, i);
    }
  }

  /** The node planned for the next row has not been placed yet. */
  lemma StillWaiting(w: Walk, byKey: map<string, Node>, placed: seq<Node>, more: set<Node>, shown: map<Node, Tree>)
    requires w.Sized() && |placed| < |w.ns| && Distinct(w.nodes) && RowsDone(w, placed, more, shown, |placed|)
    requires RowOk(w, byKey, |placed|) && w.plan[|placed|].Some?
    ensures w.nodes[w.plan[|placed|].value] !in placed
  {
    var i := |placed|;
    forall j | 0 <= j < i ensures placed[j] != w.nodes[w.plan[i].value] {
      RowsDoneAt(w, placed, more, shown, i, j);
      assert w.plan[..i][j] == w.plan[j];
    }
  }

  /** The Map from key to node, for nodes that show the trees os. */
  ghost predicate MapHolds(byKey: map<string, Node>, nodes: seq<Node>, os: seq<Tree>) {
    && |nodes| == |os|
    && (forall key :: key in byKey <==> LookupKey(os, key).Some?)
    && (forall key <- byKey :: byKey[key] == nodes[LookupKey(os, key).value])
  }

  /** The Map and the plan are built from the same trees, with keys unique where they matter. */
  ghost predicate Indexed(w: Walk, byKey: map<string, Node>) {
    && Keyed(w.os, w.ns) && KeysOkKids(w.os, w.ns) && w.Sized()
    && w.plan == Plan(w.os, w.ns) && w.want == MorphKids(w.os, w.ns)
    && (forall o <- w.nodes :: o.kind == Element) && MapHolds(byKey, w.nodes, w.os)
  }

  lemma PlannedOnce(w: Walk, byKey: map<string, Node>, i: nat)
    requires Indexed(w, byKey) && i < |w.ns| && w.plan[i].Some?
    ensures w.plan[i] !in w.plan[..i]
  {
    assert w.ns[i] in w.ns;
    forall j | 0 <= j < i ensures w.plan[j] != w.plan[i] {
      assert w.ns[j] in w.ns;
      assert w.ns[j].attrs[KEY_ATTR] != w.ns[i].attrs[KEY_ATTR];
    }
  }

  lemma PlanRow(w: Walk, byKey: map<string, Node>, i: nat)
    requires Indexed(w, byKey) && i < |w.ns|
    ensures RowOk(w, byKey, i)
  {
    assert w.ns[i] in w.ns;
    if w.plan[i].Some? {
      PlannedOnce(w, byKey, i);
    }
  }

  /** The Map and the trees make a sound plan. */
  lemma {:induction false} PlanHolds(w: Walk, byKey: map<string, Node>, n: nat)
    requires Indexed(w, byKey) && n <= |w.ns|
    ensures RowsOk(w, byKey, n)
  {
    if n > 0 {
      PlanHolds(w, byKey, n - 1);
      PlanRow(w, byKey, n - 1);
    }
  }

  /** The first `n` rows are planned for the old nodes at their own places and change nothing there. */
  ghost predicate SameRows(w: Walk, n: nat)
    requires w.Sized() && n <= |w.ns| == |w.os|
  {
    n == 0 || (SameRows(w, n - 1) && w.plan[n - 1] == Some(n - 1) && w.want[n - 1] == w.os[n - 1])
  }

  lemma {:induction false} SameRowsAt(w: Walk, n: nat, j: nat)
    requires w.Sized() && j < n <= |w.ns| == |w.os| && SameRows(w, n)
    ensures w.plan[j] == Some(j) && w.want[j] == w.os[j]
  {
    if j < n - 1 {
      SameRowsAt(w, n - 1, j);
    }
  }

  lemma {:induction false} UnchangedIsSame(w: Walk, n: nat)
    requires Keyed(w.os, w.ns) && UniqueKeys(w.os) && MorphKids(w.os, w.ns) == w.os
    requires w.Sized() && w.plan == Plan(w.os, w.ns) && w.want == MorphKids(w.os, w.ns) && n <= |w.ns|
    ensures SameRows(w, n)
  {
    if n > 0 {
      UnchangedIsSame(w, n - 1);
      UnchangedRow(w, n - 1);
    }
  }

  lemma UnchangedRow(w: Walk, j: nat)
    requires Keyed(w.os, w.ns) && UniqueKeys(w.os) && MorphKids(w.os, w.ns) == w.os
    requires w.Sized() && w.plan == Plan(w.os, w.ns) && w.want == MorphKids(w.os, w.ns) && j < |w.ns|
    ensures w.plan[j] == Some(j) && w.want[j] == w.os[j]
  {
    UnchangedMatches(w.os, w.ns, j);
  }

  /** `start` gives the first `n` old nodes the trees they show. */
  ghost predicate StartsAs(w: Walk, start: map<Node, Tree>, n: nat)
    requires w.Sized() && n <= |w.os|
  {
    n == 0 || (StartsAs(w, start, n - 1) && w.nodes[n - 1] in start && start[w.nodes[n - 1]] == w.os[n - 1])
  }

  lemma {:induction false} StartsAsAt(w: Walk, start: map<Node, Tree>, n: nat, k: nat)
    requires w.Sized() && k < n <= |w.os| && StartsAs(w, start, n)
    ensures w.nodes[k] in start && start[w.nodes[k]] == w.os[k]
  {
    if k < n - 1 {
      StartsAsAt(w, start, n - 1, k);
    }
  }

  lemma {:induction false} StartsAsTracked(w: Walk, start: map<Node, Tree>, n: nat)
    requires w.Sized() && n <= |w.os|
    requires forall k :: 0 <= k < |w.os| ==> w.nodes[k] in start && start[w.nodes[k]] == w.os[k]
    ensures StartsAs(w, start, n)
  {
    if n > 0 {
      StartsAsTracked(w, start, n - 1);
    }
  }

  /** Old node `k` carries a key, and the rows planned for it are those with that key. */
  ghost predicate OldOk(w: Walk, k: nat)
    requires w.Sized() && k < |w.os|
  {
    && w.os[k].kind == Element && KEY_ATTR in w.os[k].attrs
    && forall j :: 0 <= j < |w.ns| ==> (w.plan[j] == Some(k) <==> HasKey(w.ns[j], w.os[k].attrs[KEY_ATTR]))
  }

  ghost predicate OldsOk(w: Walk, n: nat)
    requires w.Sized() && n <= |w.os|
  {
    n == 0 || (OldsOk(w, n - 1) && OldOk(w, n - 1))
  }

  lemma {:induction false} OldsOkAt(w: Walk, n: nat, k: nat)
    requires w.Sized() && k < n <= |w.os| && OldsOk(w, n)
    ensures OldOk(w, k)
  {
    if k < n - 1 {
      OldsOkAt(w, n - 1, k);
    }
  }

  lemma {:induction false} OldsHold(w: Walk, n: nat)
    requires Keyed(w.os, w.ns) && UniqueKeys(w.os) && w.Sized() && w.plan == Plan(w.os, w.ns) && n <= |w.os|
    ensures OldsOk(w, n)
  {
    if n > 0 {
      OldsHold(w, n - 1);
      var k := n - 1;
      assert w.os[k] in w.os && HasKey(w.os[k], w.os[k].attrs[KEY_ATTR]);
      forall j | 0 <= j < |w.ns| ensures w.plan[j] == Some(k) <==> HasKey(w.ns[j], w.os[k].attrs[KEY_ATTR]) {
        assert w.ns[j] in w.ns;
      }
    }
  }

  /** After the walk an old node still shows its key, and has been placed exactly when its key was seen. */
  lemma PlacedIffSeen(w: Walk, byKey: map<string, Node>, start: map<Node, Tree>, placed: seq<Node>, more: set<Node>,
                      shown: map<Node, Tree>, k: nat)
    requires w.Sized() && Distinct(w.nodes) && |placed| == |w.ns| && RowsDone(w, placed, more, shown, |placed|)
    requires k < |w.os| && OldOk(w, k) && RowsOk(w, byKey, |w.ns|)
    requires w.nodes[k] in start && start[w.nodes[k]] == w.os[k]
    requires shown - Members(placed) == start - Members(placed)
    ensures w.nodes[k] in placed <==> w.os[k].attrs[KEY_ATTR] in KeysOf(w.ns, |w.ns|)
    ensures w.nodes[k] in shown && HasKey(shown[w.nodes[k]], w.os[k].attrs[KEY_ATTR])
  {
    var key := w.os[k].attrs[KEY_ATTR];
    KeysOfMembers(w.ns, |w.ns|, key);
    if w.nodes[k] in placed {
      var j :| 0 <= j < |placed| && placed[j] == w.nodes[k];
      RowsDoneAt(w, placed, more, shown, |placed|, j);
      RowsOkAt(w, byKey, |w.ns|, j);
      assert w.plan[j] == Some(k);
      assert HasKey(w.ns[j], key) && w.want[j] == Morph(w.os[k], w.ns[j]);
    } else {
      assert w.nodes[k] in start - Members(placed);
    }
    if j :| 0 <= j < |w.ns| && HasKey(w.ns[j], key) {
      RowsDoneAt(w, placed, more, shown, |placed|, j);
    }
  }

  class Node {
    const kind: Kind
    const name: string
    var value: string
    var attrs: map<string, string>
    var children: seq<Node>

    ghost var tree: Tree       // the subtree this node shows
    ghost var Repr: set<Node>  // this node and everything below it

    ghost predicate Valid()
      reads this, Repr
      decreases Repr
      ensures Valid() ==> this in Repr
    {
      && this in Repr && Distinct(children)
      && (forall c <- children :: c in Repr && c.Repr <= Repr && this !in c.Repr && c.Valid())
      && (forall a <- children, b <- children :: a != b ==> a.Repr !! b.Repr)
      && tree.kind == kind && tree.name == name && tree.value == value && tree.attrs == attrs
      && (tree.origin == null || tree.origin == this)
      && |tree.kids| == |children|
      && (forall i :: 0 <= i < |children| ==> tree.kids[i] == children[i].tree)
    }

    constructor Bare(kind: Kind, name: string, value: string, attrs: map<string, string>)
      ensures Valid() && fresh(Repr) && children == []
      ensures tree == Tree(kind, name, value, attrs, [], null)
      ensures this.kind == kind && this.name == name && this.value == value && this.attrs == attrs
    {
      this.kind, this.name, this.value, this.attrs := kind, name, value, attrs;
      children := [];
      tree, Repr := Tree(kind, name, value, attrs, [], null), {this};
    }

    /** Valid trees inside `region` that share no node. */
    static ghost predicate Forest(nodes: seq<Node>, region: set<Node>)
      reads region
    {
      && Distinct(nodes)
      && (forall c <- nodes :: c in region && c.Repr <= region && c.Valid())
      && (forall a <- nodes, b <- nodes :: a != b ==> a.Repr !! b.Repr)
    }

    static lemma ForestPlus(nodes: seq<Node>, c: Node, region: set<Node>)
      requires Forest(nodes, region) && c.Valid() && c.Repr !! region
      ensures Forest(nodes + [c], region + c.Repr)
    {
    }

    /** Bring the ghost state up to date with the children. */
    ghost method Seal(ks: seq<Tree>, below: set<Node>)
      requires Standing(ks, below)
      requires tree.kind == kind && tree.name == name && tree.value == value && tree.attrs == attrs
      requires tree.origin == null || tree.origin == this
      modifies this`Repr, this`tree
      ensures Valid() && Repr == {this} + below
      ensures tree == old(tree).(kids := ks)
    {
      Repr := {this} + below;
      tree := tree.(kids := ks);
    }

    /** node.cloneNode(true) */
    static method Clone(t: Tree) returns (n: Node)
      ensures n.Valid() && fresh(n.Repr) && n.tree == Copy(t)
      decreases t
    {
      var kids := [];
      ghost var below := {};
      for i := 0 to |t.kids|
        invariant Forest(kids, below) && fresh(below)
        invariant |kids| == i && forall j :: 0 <= j < i ==> kids[j].tree == Copy(t.kids[j])
      {
        var c := Clone(t.kids[i]);
        ForestPlus(kids, c, below);
        kids := kids + [c];
        below := below + c.Repr;
      }
      n := new Node.Bare(t.kind, t.name, t.value, t.attrs);
      n.children := kids;
      n.Seal(Copy(t).kids, below);
    }

    // ----- attributes -----

    /** Returns how many setAttribute and removeAttribute calls were made. */
    method PatchAttrs(t: Tree) returns (ghost calls: nat)
      modifies this`attrs
      ensures attrs == t.attrs
      ensures calls == 0 <==> old(attrs) == t.attrs
    {
      calls := 0;
      var names := t.attrs.Keys;
      while names != {}
        invariant names <= t.attrs.Keys
        invariant attrs.Keys == old(attrs).Keys + (t.attrs.Keys - names)
        invariant forall a <- t.attrs.Keys - names :: attrs[a] == t.attrs[a]
        invariant forall a <- old(attrs).Keys - (t.attrs.Keys - names) :: attrs[a] == old(attrs)[a]
        invariant calls == 0 ==> attrs == old(attrs)
        invariant old(attrs) == t.attrs ==> calls == 0
      {
        var a :| a in names;
        if a !in attrs || attrs[a] != t.attrs[a] {
          attrs := attrs[a := t.attrs[a]];
          calls := calls + 1;
        }
        names := names - {a};
      }
      names := attrs.Keys;
      while names != {}
        invariant names <= attrs.Keys
        invariant t.attrs.Keys <= attrs.Keys <= t.attrs.Keys + names
        invariant forall a <- t.attrs.Keys :: attrs[a] == t.attrs[a]
        invariant calls == 0 ==> attrs == old(attrs)
        invariant old(attrs) == t.attrs ==> calls == 0
      {
        var a :| a in names;
        if a !in t.attrs {
          attrs := attrs - {a};
          calls := calls + 1;
        }
        names := names - {a};
      }
      assert attrs == t.attrs;
    }

    // ----- children -----

    /** this.insertBefore(child, next): a child already here is taken out first. */
    method InsertBefore(child: Node, next: Node?)
      requires child != next && (next != null ==> next in children)
      modifies this`children
      ensures
        var s := Removed(old(children), child);
        if next == null then children == s + [child]
        else next in s && children == s[..IndexOf(s, next)] + [child] + s[IndexOf(s, next)..]
    {
      var s := Removed(children, child);
      if next == null {
        children := s + [child];
      } else {
        RemovedMembers(children, child);
        var k := IndexOf(s, next);
        children := s[..k] + [child] + s[k..];
      }
    }

    /** child.remove() */
    method RemoveChild(child: Node)
      requires child in children
      modifies this`children
      ensures children == Removed(old(children), child)
    {
      children := Removed(children, child);
    }

    /** Remove the nodes `rest`, which follow `kept`. */
    method RemoveSurplus(ghost kept: seq<Node>, rest: seq<Node>)
      requires children == kept + rest && forall o <- rest :: o !in kept
      modifies this`children
      ensures children == kept
    {
      for i := 0 to |rest|
        invariant children == kept + rest[i..]
      {
        RemoveNext(kept, rest, i);
        RemoveChild(rest[i]);
      }
    }

    /** this.appendChild(t.cloneNode(true)) */
    method AppendClone(t: Tree, ghost below: set<Node>) returns (ghost c: Node)
      requires this !in below && Forest(children, below)
      modifies this`children
      ensures children == old(children) + [c] && c.tree == Copy(t) && fresh(c.Repr) && c in c.Repr
      ensures Forest(children, below + c.Repr)
    {
      var clone := Clone(t);
      children := children + [clone];
      c := clone;
    }

    method SetNodeValue(v: string)
      requires Valid()
      modifies this`value, this`tree
      ensures Valid() && tree == old(tree).(value := v)
    {
      value := v;
      tree := tree.(value := v);
    }

    /** patchElement on one of this node's children; `more` are the nodes it gained. */
    method PatchChildElement(child: Node, n: Tree, ghost below: set<Node>) returns (ghost calls: nat, ghost more: set<Node>)
      requires child in children && this !in below && Forest(children, below)
      requires child.kind == Element && n.kind == Element && KeysOk(child.tree, n)
      modifies child.Repr
      decreases n, 2
      ensures fresh(more) && Forest(children, below + more)
      ensures forall x <- children :: x.tree == if x == child then Morph(old(child.tree), n) else old(x.tree)
      ensures calls == 0 ==> child.tree == old(child.tree)
      ensures old(child.tree) == Morph(old(child.tree), n) ==> calls == 0
    {
      ghost var was := child.Repr;
      assert forall x <- children :: x != child ==> x.Repr !! was;
      calls := child.PatchElement(n);
      more := child.Repr - was;
      assert forall x <- children :: x.Valid() && x.Repr <= below + more;
    }

    static lemma ForestReplace(nodes: seq<Node>, i: nat, c: Node, region: set<Node>)
      requires Forest(nodes, region) && i < |nodes| && c.Valid() && c.Repr !! region
      ensures Forest(nodes[i := c], region + c.Repr)
    {
      assert forall x <- nodes[i := c] :: x == c || x in nodes;
    }

    /** this.replaceChild(t.cloneNode(true), children[i]) */
    method ReplaceByClone(i: nat, t: Tree, ghost below: set<Node>) returns (ghost more: set<Node>)
      requires i < |children| && this !in below && Forest(children, below)
      modifies this`children
      ensures |children| == old(|children|) && forall j :: 0 <= j < |children| && j != i ==> children[j] == old(children)[j]
      ensures children[i] in more && fresh(more) && children[i].tree == Copy(t)
      ensures Forest(children, below + more)
    {
      var c := Clone(t);
      ForestReplace(children, i, c, below);
      children := children[i := c];
      more := c.Repr;
    }

    /** patchNode: bring the child at `i` to template `n` in place, or put a clone in its
        place. `below` bounds the nodes under this one; `more` are the nodes it gained. */
    method PatchNode(i: nat, n: Tree, ghost below: set<Node>) returns (ghost calls: nat, ghost more: set<Node>)
      requires i < |children| && this !in below && Forest(children, below)
      requires SameNode(children[i].tree, n) ==> KeysOk(children[i].tree, n)
      modifies this`children, children[i].Repr
      decreases n, 3
      ensures fresh(more) && Forest(children, below + more)
      ensures |children| == old(|children|)
      ensures forall j :: 0 <= j < |children| && j != i ==>
        children[j] == old(children)[j] && children[j].tree == old(children[j].tree)
      ensures if old(SameNode(children[i].tree, n))
              then children[i] == old(children)[i] && children[i].tree == Morph(old(children[i].tree), n)
              else fresh(children[i]) && children[i].tree == Copy(n)
      ensures calls == 0 ==> children == old(children) && children[i].tree == old(children[i].tree)
      ensures old(SameNode(children[i].tree, n) && Morph(children[i].tree, n) == children[i].tree) ==> calls == 0
    {
      var child := children[i];
      calls, more := 0, {};
      if child.kind != n.kind || child.name != n.name {
        more := ReplaceByClone(i, n, below);
        calls := 1;
      } else if child.kind == Element {
        calls, more := PatchChildElement(child, n, below);
      } else if child.value != n.value {
        child.SetNodeValue(n.value);
        calls := 1;
      }
    }

    method PatchElement(t: Tree) returns (ghost calls: nat)
      requires Valid() && kind == Element && t.kind == Element && KeysOk(tree, t)
      modifies Repr
      decreases t, 1
      ensures Valid() && fresh(Repr - old(Repr))
      ensures tree == Morph(old(tree), t)
      ensures calls == 0 ==> tree == old(tree)
      ensures Morph(old(tree), t) == old(tree) ==> calls == 0
      ensures if PRESERVE_ATTR in t.attrs then children == old(children)
              else Reused(old(tree.kids), t.kids, old(children), children)
    {
      calls := PatchAttrs(t);
      tree := tree.(attrs := attrs);
      if PRESERVE_ATTR in attrs {
        return;
      }
      ghost var more := PatchChildren(t.kids);
      calls := calls + more;
    }

    static ghost predicate Tracks(nodes: seq<Node>, ts: seq<Tree>)
      reads nodes
    {
      |nodes| == |ts| && forall i :: 0 <= i < |nodes| ==> nodes[i].tree == ts[i]
    }

    /** Every new child that has a match is held by the very node that was matched. */
    static ghost predicate Reused(os: seq<Tree>, ns: seq<Tree>, was: seq<Node>, now: seq<Node>) {
      && |was| == |os| && |now| == |ns|
      && forall j :: 0 <= j < |ns| && Match(os, ns, j).Some? ==> now[j] == was[Match(os, ns, j).value]
    }

    /** isKeyed over live nodes. */
    static predicate KeyedNodes(nodes: seq<Node>)
      reads nodes
    {
      |nodes| > 0 && forall o <- nodes :: o.kind.Element? && KEY_ATTR in o.attrs
    }

    lemma KeyedAlike()
      requires Valid()
      ensures KeyedNodes(children) <==> IsKeyed(tree.kids)
    {
      forall i | 0 <= i < |children|
        ensures children[i].kind == tree.kids[i].kind && children[i].attrs == tree.kids[i].attrs
      {
        assert children[i].Valid();
      }
      if KeyedNodes(children) {
        forall t | t in tree.kids ensures t.kind.Element? && KEY_ATTR in t.attrs {
          var i :| 0 <= i < |tree.kids| && tree.kids[i] == t;
        }
      }
      if IsKeyed(tree.kids) {
        forall o | o in children ensures o.kind.Element? && KEY_ATTR in o.attrs {
          var i :| 0 <= i < |children| && children[i] == o;
          assert tree.kids[i] in tree.kids;
        }
      }
    }

    /** The children are a forest of the nodes below and show the given trees; as an equivalence the
        verifier keeps it in one piece. */
    ghost predicate Standing(ks: seq<Tree>, below: set<Node>)
      reads this, below, children
    {
      (this !in below && Forest(children, below) && Tracks(children, ks)) <==> true
    }

    /** A valid node's children are a forest below it that shows its trees. */
    lemma Opened()
      requires Valid()
      ensures Standing(tree.kids, Repr - {this})
      ensures KeyedNodes(children) <==> IsKeyed(tree.kids)
    {
      KeyedAlike();
    }

    /** An old child stays a child exactly when some row is matched with it. */
    static ghost predicate Stays(os: seq<Tree>, ns: seq<Tree>, was: seq<Node>, now: seq<Node>) {
      forall i :: 0 <= i < |was| ==> (was[i] in now <==> exists j :: 0 <= j < |ns| && Match(os, ns, j) == Some(i))
    }

    /** When both lists are non-empty and all their members are elements with a key, a row is held by the old
        node that has its key; otherwise by the old node at its place, if that has its kind and tag. */
    static ghost predicate RowsKeepNodes(os: seq<Tree>, ns: seq<Tree>, was: seq<Node>, now: seq<Node>) {
      (&& |was| == |os| && |now| == |ns|
       && if |os| > 0 && |ns| > 0 && (forall t <- os + ns :: t.kind == Element && "data-k" in t.attrs)
          then forall i, j :: 0 <= i < |os| && 0 <= j < |ns| && os[i].attrs["data-k"] == ns[j].attrs["data-k"] ==> now[j] == was[i]
          else forall j :: 0 <= j < |ns| && j < |os| && os[j].kind == ns[j].kind && os[j].name == ns[j].name ==> now[j] == was[j])
      <==> true
    }

    static lemma KeysKeepNodes(os: seq<Tree>, ns: seq<Tree>, was: seq<Node>, now: seq<Node>)
      requires KeysOkKids(os, ns) && Reused(os, ns, was, now)
      ensures RowsKeepNodes(os, ns, was, now)
    {
      if |ns| > 0 {
        KeyedIs(os, ns);
      }
      forall i, j | 0 <= i < |os| && 0 <= j < |ns| && Keyed(os, ns) && os[i].attrs["data-k"] == ns[j].attrs["data-k"]
        ensures now[j] == was[i]
      {
        MatchIs(os, ns, j, i);
      }
      forall j | 0 <= j < |ns| && j < |os| && !Keyed(os, ns) && os[j].kind == ns[j].kind && os[j].name == ns[j].name
        ensures now[j] == was[j]
      {
        MatchIs(os, ns, j, j);
      }
    }

    static lemma OnlyMatchedStay(os: seq<Tree>, ns: seq<Tree>, was: seq<Node>, now: seq<Node>)
      requires Distinct(was) && Reused(os, ns, was, now)
      requires forall j :: 0 <= j < |ns| && Match(os, ns, j).None? ==> now[j] !in was
      ensures Stays(os, ns, was, now)
    {
      forall i | 0 <= i < |was| ensures was[i] in now <==> exists j :: 0 <= j < |ns| && Match(os, ns, j) == Some(i) {
        if was[i] in now {
          var j :| 0 <= j < |now| && now[j] == was[i];
          assert Match(os, ns, j).Some?;
          assert Match(os, ns, j) == Some(i);
        }
        if j :| 0 <= j < |ns| && Match(os, ns, j) == Some(i) {
          assert now[j] == was[i];
        }
      }
    }

    /** Nodes show one list of trees. */
    static lemma TracksOne(nodes: seq<Node>, a: seq<Tree>, b: seq<Tree>)
      requires Tracks(nodes, a)
      ensures Tracks(nodes, b) <==> a == b
    {
    }

    /** Keyed when both lists are, positional otherwise. */
    method Reconcile(ns: seq<Tree>, ghost os: seq<Tree>, ghost below: set<Node>) returns (ghost calls: nat, ghost more: set<Node>)
      requires Standing(os, below)
      requires KeysOkKids(os, ns) && (KeyedNodes(children) <==> IsKeyed(os))
      modifies this`children, below
      decreases ns, 4
      ensures fresh(more) && Standing(MorphKids(os, ns), below + more)
      ensures Reused(os, ns, old(children), children)
      ensures forall j :: 0 <= j < |ns| && Match(os, ns, j).None? ==> fresh(children[j])
      ensures Stays(os, ns, old(children), children) && RowsKeepNodes(os, ns, old(children), children)
      ensures calls == 0 ==> children == old(children)
      ensures calls == 0 <==> MorphKids(os, ns) == os
    {
      ghost var was := children;
      if IsKeyed(ns) && KeyedNodes(children) {
        calls, more := PatchKeyed(ns, os, below);
      } else {
        calls, more := PatchPositional(ns, os, below);
      }
      TracksOne(children, MorphKids(os, ns), os);
      OnlyMatchedStay(os, ns, was, children);
      KeysKeepNodes(os, ns, was, children);
    }

    method PatchChildren(ns: seq<Tree>) returns (ghost calls: nat)
      requires Valid() && KeysOkKids(tree.kids, ns)
      modifies Repr
      decreases ns, 5
      ensures Valid() && fresh(Repr - old(Repr))
      ensures tree == old(tree).(kids := MorphKids(old(tree.kids), ns))
      ensures Reused(old(tree.kids), ns, old(children), children)
      ensures forall j :: 0 <= j < |ns| && Match(old(tree.kids), ns, j).None? ==> fresh(children[j])
      ensures Stays(old(tree.kids), ns, old(children), children)
      ensures RowsKeepNodes(old(tree.kids), ns, old(children), children)
      ensures calls == 0 ==> tree == old(tree) && children == old(children)
      ensures calls == 0 <==> MorphKids(old(tree.kids), ns) == old(tree.kids)
      ensures AgreesKids(old(tree.kids), ns) ==> calls == 0
    {
      Opened();
      AgreementCostsNothing(tree.kids, ns);
      ghost var os, whole := tree.kids, Repr;
      ghost var below, more := Repr - {this}, {};
      calls, more := Reconcile(ns, os, below);
      OnlyGained(this, whole, more);
      Seal(MorphKids(os, ns), below + more);
    }

    static lemma OnlyGained(x: Node, whole: set<Node>, more: set<Node>)
      requires x in whole
      ensures {x} + (whole - {x} + more) - whole <= more
    {
    }

    static lemma AgreementCostsNothing(os: seq<Tree>, ns: seq<Tree>)
      requires KeysOkKids(os, ns)
      ensures AgreesKids(os, ns) ==> MorphKids(os, ns) == os
    {
      if AgreesKids(os, ns) {
        AgreeingKidsAreUnchanged(os, ns);
      }
    }

    static lemma SurplusApart(s: seq<Node>, n: nat, region: set<Node>)
      requires Forest(s, region) && n <= |s|
      ensures forall o <- s[n..] :: o !in s[..n]
    {
      forall i, j | 0 <= i < n <= j < |s| ensures s[i] != s[j] {
        assert s[i].Valid() && s[j].Valid();
      }
    }

    /** One position: append a clone past the old children, else patch the child there. */
    method PatchPosition(i: nat, m: nat, n: Tree, ghost below: set<Node>) returns (ghost calls: nat, ghost more: set<Node>)
      requires this !in below && Forest(children, below)
      requires |children| == if i < m then m else i
      requires i < m && SameNode(children[i].tree, n) ==> KeysOk(children[i].tree, n)
      modifies this`children, below
      decreases n, 4
      ensures fresh(more) && Forest(children, below + more)
      ensures |children| == if i < m then m else i + 1
      ensures forall j :: 0 <= j < |old(children)| && j != i ==>
        children[j] == old(children)[j] && children[j].tree == old(children[j].tree)
      ensures if i < m && old(SameNode(children[i].tree, n))
              then children[i] == old(children)[i] && children[i].tree == Morph(old(children[i].tree), n)
              else fresh(children[i]) && children[i].tree == Copy(n)
      ensures calls == 0 ==> children == old(children) && i < m && children[i].tree == old(children[i].tree)
      ensures i < m && old(SameNode(children[i].tree, n) && Morph(children[i].tree, n) == children[i].tree) ==> calls == 0
    {
      if i >= m {
        ghost var c := AppendClone(n, below);
        calls, more := 1, c.Repr;
      } else {
        calls, more := PatchNode(i, n, below);
      }
    }

    /** The children before position i are patched, those from it on are still the old ones. */
    static ghost predicate PatchedUpTo(i: nat, now: seq<Node>, was: seq<Node>, os: seq<Tree>, ns: seq<Tree>)
      requires !Keyed(os, ns) && i <= |ns| && |was| == |os| && |now| == if i < |was| then |was| else i
      reads now
    {
      && (forall j :: i <= j < |was| ==> now[j] == was[j] && now[j].tree == os[j])
      && (forall j :: 0 <= j < i ==> now[j].tree == MorphKids(os, ns)[j])
      && (forall j :: 0 <= j < i && Match(os, ns, j).Some? ==> now[j] == was[j])
    }

    /** A patch that changes nothing has nothing to do at any position. */
    static lemma UnchangedStep(os: seq<Tree>, ns: seq<Tree>, i: nat)
      requires !Keyed(os, ns) && i < |ns|
      ensures MorphKids(os, ns) == os ==> i < |os| && SameNode(os[i], ns[i]) && Morph(os[i], ns[i]) == os[i]
    {
      if MorphKids(os, ns) == os {
        UnchangedMatches(os, ns, i);
      }
    }

    /** The loop over the template's positions. */
    method PatchPositions(ns: seq<Tree>, ghost os: seq<Tree>, ghost below: set<Node>)
      returns (ghost calls: nat, ghost more: set<Node>)
      requires this !in below && Forest(children, below) && Tracks(children, os)
      requires KeysOkKids(os, ns) && !Keyed(os, ns)
      modifies this`children, below
      decreases ns, 0
      ensures fresh(more) && Forest(children, below + more)
      ensures |children| == (if |ns| < |os| then |os| else |ns|) && PatchedUpTo(|ns|, children, old(children), os, ns)
      ensures forall j :: 0 <= j < |ns| && Match(os, ns, j).None? ==> fresh(children[j])
      ensures calls == 0 ==> children == old(children) && Tracks(children, os)
      ensures MorphKids(os, ns) == os ==> calls == 0
    {
      calls, more := 0, {};
      ghost var oldNodes := children;
      var m := |children|;
      for i := 0 to |ns|
        invariant fresh(more) && Forest(children, below + more)
        invariant |children| == (if i < m then m else i) && PatchedUpTo(i, children, oldNodes, os, ns)
        invariant forall j :: 0 <= j < i && Match(os, ns, j).None? ==> fresh(children[j])
        invariant calls == 0 ==> children == oldNodes && Tracks(children, os)
        invariant MorphKids(os, ns) == os ==> calls == 0
      {
        UnchangedStep(os, ns, i);
        ghost var spent, gained := PatchPosition(i, m, ns[i], below + more);
        more := more + gained;
        calls := calls + spent;
      }
    }

    /** Cutting the children at the template's length leaves what was wanted. */
    static lemma PrefixDelivered(now: seq<Node>, was: seq<Node>, os: seq<Tree>, ns: seq<Tree>, region: set<Node>)
      requires !Keyed(os, ns) && |was| == |os| && |now| == if |ns| < |was| then |was| else |ns|
      requires Forest(now, region) && PatchedUpTo(|ns|, now, was, os, ns)
      ensures Forest(now[..|ns|], region) && Tracks(now[..|ns|], MorphKids(os, ns)) && Reused(os, ns, was, now[..|ns|])
    {
      assert forall c <- now[..|ns|] :: c in now;
    }

    method PatchPositional(ns: seq<Tree>, ghost os: seq<Tree>, ghost below: set<Node>)
      returns (ghost calls: nat, ghost more: set<Node>)
      requires Standing(os, below)
      requires KeysOkKids(os, ns) && !Keyed(os, ns)
      modifies this`children, below
      decreases ns, 1
      ensures fresh(more) && Standing(MorphKids(os, ns), below + more)
      ensures Reused(os, ns, old(children), children)
      ensures forall j :: 0 <= j < |ns| && Match(os, ns, j).None? ==> fresh(children[j])
      ensures calls == 0 ==> children == old(children) && Tracks(children, os)
      ensures MorphKids(os, ns) == os ==> calls == 0
    {
      var oldNodes := children;
      calls, more := PatchPositions(ns, os, below);
      // past the template's last child every remaining old node is surplus
      var surplus := if |ns| < |oldNodes| then oldNodes[|ns|..] else [];
      ghost var kept := children[..|ns|];
      PrefixDelivered(children, oldNodes, os, ns, below + more);
      SurplusApart(children, |ns|, below + more);
      assert children == kept + surplus;
      RemoveSurplus(kept, surplus);
      calls := calls + |surplus|;
    }

    // ----- keyed reconciliation -----

    static lemma AttrsShown(nodes: seq<Node>, os: seq<Tree>, region: set<Node>)
      requires Forest(nodes, region) && Tracks(nodes, os)
      ensures forall k :: 0 <= k < |nodes| ==> nodes[k].kind == os[k].kind && nodes[k].attrs == os[k].attrs
    {
      forall k | 0 <= k < |nodes| ensures nodes[k].kind == os[k].kind && nodes[k].attrs == os[k].attrs {
        assert nodes[k] in nodes;
      }
    }

    /** new Map of key to node; os are the trees the nodes show. */
    static method IndexByKey(nodes: seq<Node>, ghost os: seq<Tree>, ghost region: set<Node>) returns (byKey: map<string, Node>)
      requires Forest(nodes, region) && Tracks(nodes, os) && IsKeyed(os)
      ensures MapHolds(byKey, nodes, os)
    {
      AttrsShown(nodes, os, region);
      byKey := map[];
      for k := 0 to |nodes|
        invariant forall key :: key in byKey <==> LookupKey(os[..k], key).Some?
        invariant forall key <- byKey :: byKey[key] == nodes[LookupKey(os[..k], key).value]
      {
        assert os[k] in os && os[..k + 1][..k] == os[..k];
        byKey := byKey[nodes[k].attrs[KEY_ATTR] := nodes[k]];
      }
      assert os[..|nodes|] == os;
    }

    /** Put `target` right after the walked prefix `placed`, whose last node is `cursor`. */
    method PlaceAfter(cursor: Node?, target: Node, ghost placed: seq<Node>, ghost rest: seq<Node>) returns (ghost calls: nat)
      requires children == placed + rest && target !in placed && Distinct(children)
      requires if |placed| == 0 then cursor == null else cursor == placed[|placed| - 1]
      modifies this`children
      ensures children == placed + [target] + Removed(rest, target)
      ensures calls == 0 <==> |rest| > 0 && rest[0] == target
      ensures calls == 0 ==> children == old(children)
    {
      var at := if cursor == null then 0 else IndexOf(children, cursor) + 1;
      if cursor != null {
        IndexDistinct(children, |placed| - 1);
      }
      var next: Node? := if at < |children| then children[at] else null;
      calls := 0;
      if next != target {
        InsertSpot(placed, rest, target);
        InsertBefore(target, next);
        calls := 1;
      }
    }

    /** Remove the old nodes whose key the template does not have. */
    method RemoveUnseen(oldNodes: seq<Node>, seen: set<string>, ghost placed: seq<Node>)
      returns (ghost calls: nat)
      requires Distinct(oldNodes) && this !in oldNodes
      requires children == placed + Without(oldNodes, Members(placed))
      requires forall o <- oldNodes :: KEY_ATTR in o.attrs && (o.attrs[KEY_ATTR] in seen <==> o in placed)
      modifies this`children
      ensures children == placed
      ensures calls == 0 <==> old(children) == placed
    {
      calls := 0;
      for k := 0 to |oldNodes|
        invariant children == placed + Without(oldNodes[k..], Members(placed))
        invariant calls == 0 <==> children == old(children)
        invariant |children| <= |old(children)|
      {
        var o := oldNodes[k];
        assert oldNodes[k..] == [o] + oldNodes[k + 1..];
        if o.attrs[KEY_ATTR] !in seen {
          ghost var rest := Without(oldNodes[k + 1..], Members(placed));
          assert Without(oldNodes[k..], Members(placed)) == [o] + rest;
          RemovedOnRight(placed, [o] + rest, o);
          assert Removed([o] + rest, o) == rest;
          RemoveChild(o);
          calls := calls + 1;
        }
      }
    }

    static lemma ForestOf(nodes: seq<Node>, some: seq<Node>, region: set<Node>)
      requires Forest(nodes, region) && Distinct(some) && forall c <- some :: c in nodes
      ensures Forest(some, region)
    {
    }

    static ghost predicate Shown(nodes: seq<Node>, shown: map<Node, Tree>)
      reads nodes
    {
      forall c <- nodes :: c in shown && c.tree == shown[c]
    }

    /** The nodes form a forest and show the given trees; as an equivalence the verifier keeps it in one piece. */
    static ghost predicate Showing(nodes: seq<Node>, shown: map<Node, Tree>, region: set<Node>)
      reads region, nodes
    {
      (Forest(nodes, region) && Shown(nodes, shown)) <==> true
    }

    /** The node for one row: the one found under its key, patched, or a clone. */
    method RowNode(row: Tree, found: Node?, ghost shown: map<Node, Tree>, ghost below: set<Node>)
      returns (target: Node, ghost all: seq<Node>, ghost calls: nat, ghost more: set<Node>)
      requires this !in below && Forest(children, below) && Shown(children, shown)
      requires found != null ==> (found in children && found.kind == Element && row.kind == Element)
      requires found != null ==> KeysOk(shown[found], row)
      modifies below
      decreases row, 3
      ensures fresh(more) && all == (if found != null then children else children + [target])
      ensures Forest(all, below + more)
      ensures Shown(all, shown[target := if found != null then Morph(shown[found], row) else Copy(row)])
      ensures if found != null then target == found else target in more && fresh(target)
      ensures calls == 0 && found != null ==> Morph(shown[found], row) == shown[found]
      ensures found != null && Morph(shown[found], row) == shown[found] ==> calls == 0
    {
      all := children;
      if found != null {
        target := found;
        calls, more := PatchChildElement(found, row, below);
      } else {
        target := Clone(row);
        calls, more := 0, target.Repr;
        ForestPlus(children, target, below);
        all := all + [target];
      }
    }

    /** The order after a placement: what is in it, and that it still is a forest showing the same. */
    static lemma AfterPlacing(all: seq<Node>, placed: seq<Node>, oldNodes: seq<Node>, target: Node,
                              shown: map<Node, Tree>, region: set<Node>)
      requires Forest(all, region) && Shown(all, shown) && target in all
      requires Distinct(oldNodes) && target !in placed && Distinct(placed + Without(oldNodes, Members(placed)))
      requires forall x <- placed + Without(oldNodes, Members(placed)) :: x in all
      ensures
        var after := placed + [target] + Removed(Without(oldNodes, Members(placed)), target);
        && after == placed + [target] + Without(oldNodes, Members(placed + [target]))
        && Forest(after, region) && Shown(after, shown)
    {
      var after := placed + [target] + Removed(Without(oldNodes, Members(placed)), target);
      PlaceEither(placed, oldNodes, target);
      forall x | x in after ensures x in all {
        assert x in placed + Without(oldNodes, Members(placed)) + [target];
      }
      ForestOf(all, after, region);
    }

    static lemma Waits(placed: seq<Node>, oldNodes: seq<Node>, x: Node?)
      requires x != null ==> x in oldNodes && x !in placed
      ensures x != null ==> x in placed + Without(oldNodes, Members(placed))
    {
    }

    /** The node for one row, before it is put in place: the order it will give shows the row. */
    method PrepareRow(row: Tree, found: Node?, ghost placed: seq<Node>, ghost oldNodes: seq<Node>,
                      ghost shown: map<Node, Tree>, ghost below: set<Node>)
      returns (target: Node, ghost calls: nat, ghost more: set<Node>)
      requires this !in below && Forest(children, below) && Shown(children, shown)
      requires Distinct(oldNodes) && children == placed + Without(oldNodes, Members(placed))
      requires found != null ==> (found in oldNodes && found !in placed && found.kind == Element && row.kind == Element)
      requires found != null ==> KeysOk(shown[found], row)
      modifies below
      decreases row, 4
      ensures fresh(more) && target !in placed && Distinct(children)
      ensures
        var after := placed + [target] + Removed(Without(oldNodes, Members(placed)), target);
        && after == placed + [target] + Without(oldNodes, Members(placed + [target]))
        && Forest(after, below + more)
        && Shown(after, shown[target := if found != null then Morph(shown[found], row) else Copy(row)])
      ensures if found != null then target == found else target in more && target !in children && target !in oldNodes
      ensures calls == 0 && found != null ==> Morph(shown[found], row) == shown[found]
      ensures found != null && Morph(shown[found], row) == shown[found] ==> calls == 0
    {
      Waits(placed, oldNodes, found);
      ghost var all;
      target, all, calls, more := RowNode(row, found, shown, below);
      AfterPlacing(all, placed, oldNodes, target, shown[target := if found != null then Morph(shown[found], row) else Copy(row)], below + more);
    }

    static lemma FirstWaiting(placed: seq<Node>, rest: seq<Node>, x: Node)
      ensures |rest| > 0 && rest[0] == x ==> x in placed + rest
      ensures |placed + rest| > |placed| && (placed + rest)[|placed|] == x <==> |rest| > 0 && rest[0] == x
    {
    }

    /** One row of the keyed walk: its node is put right after the cursor. `shown` are the
        trees the children show. */
    method PlaceRow(row: Tree, found: Node?, cursor: Node?, ghost placed: seq<Node>, ghost oldNodes: seq<Node>,
                    ghost shown: map<Node, Tree>, ghost below: set<Node>)
      returns (target: Node, ghost calls: nat, ghost more: set<Node>)
      requires this !in below && Showing(children, shown, below)
      requires Distinct(oldNodes) && children == placed + Without(oldNodes, Members(placed))
      requires if |placed| == 0 then cursor == null else cursor == placed[|placed| - 1]
      requires found != null ==> (found in oldNodes && found !in placed && found.kind == Element && row.kind == Element)
      requires found != null ==> KeysOk(shown[found], row)
      modifies this`children, below
      decreases row, 5
      ensures fresh(more)
      ensures children == placed + [target] + Without(oldNodes, Members(placed + [target]))
      ensures if found != null then target == found else target in more && target !in oldNodes
      ensures target !in placed
      ensures Showing(children, shown[target := if found != null then Morph(shown[found], row) else Copy(row)], below + more)
      ensures calls == 0 ==> children == old(children) && found != null && Morph(shown[found], row) == shown[found]
      ensures found != null && Morph(shown[found], row) == shown[found] && old(|children| > |placed| && children[|placed|] == found)
        ==> calls == 0
    {
      target, calls, more := PrepareRow(row, found, placed, oldNodes, shown, below);
      ghost var rest := Without(oldNodes, Members(placed));
      FirstWaiting(placed, rest, target);
      ghost var moved := PlaceAfter(cursor, target, placed, rest);
      calls := calls + moved;
    }

    /** The walk after i rows: the prefix `placed` is final, `more` are the nodes created, and `shown`
        the trees the children `now` show, which are still the `start` ones for every node not placed.
        `same` says that no row changes anything. */
    static ghost predicate Progress(i: nat, w: Walk, same: bool, start: map<Node, Tree>, now: seq<Node>, seen: set<string>, cursor: Node?,
                                    placed: seq<Node>, more: set<Node>, shown: map<Node, Tree>, calls: nat)
      requires w.Sized() && i <= |w.ns|
    {
      && |placed| == i && RowsDone(w, placed, more, shown, i)
      && shown - Members(placed) == start - Members(placed)
      && now == placed + Without(w.nodes, Members(placed))
      && (if i == 0 then cursor == null else cursor == placed[i - 1])
      && seen == KeysOf(w.ns, i)
      && (calls == 0 ==> now == w.nodes && shown == start)
      && (same ==> calls == 0)
    }

    /** What holds of the children and the progress between two rows. */
    ghost predicate Between(i: nat, w: Walk, same: bool, start: map<Node, Tree>, below: set<Node>, seen: set<string>, cursor: Node?,
                            s: Stage)
      requires w.Sized() && i <= |w.ns|
      reads this, children, below, s.more
    {
      && this !in below + s.more && Showing(children, s.shown, below + s.more)
      && Progress(i, w, same, start, children, seen, cursor, s.placed, s.more, s.shown, s.calls)
    }

    /** The loop invariant of the keyed walk; as an equivalence the verifier keeps it in one piece. */
    ghost predicate Walking(i: nat, w: Walk, same: bool, start: map<Node, Tree>, below: set<Node>, seen: set<string>, cursor: Node?,
                            s: Stage)
      requires w.Sized() && i <= |w.ns|
      reads this, children, below, s.more
    {
      Between(i, w, same, start, below, seen, cursor, s) <==> true
    }

    /** One row makes progress: what was found for it, and what placing it did. */
    static lemma RowWalked(i: nat, w: Walk, byKey: map<string, Node>, same: bool, start: map<Node, Tree>, was: seq<Node>, seen: set<string>,
                           cursor: Node?, placed: seq<Node>, more: set<Node>, shown: map<Node, Tree>, calls: nat,
                           found: Node?, now: seq<Node>, target: Node, gained: set<Node>, spent: nat)
      requires w.Sized() && Distinct(w.nodes) && i < |w.ns| && AllReady(w, byKey, start, same, |w.ns|)
      requires Progress(i, w, same, start, was, seen, cursor, placed, more, shown, calls)
      requires KEY_ATTR in w.ns[i].attrs && found == Found(byKey, w.ns[i].attrs[KEY_ATTR])
      requires found != null ==> found in shown
      requires now == placed + [target] + Without(w.nodes, Members(placed + [target])) && target !in placed
      requires if found != null then target == found else target in gained && target !in w.nodes
      requires spent == 0 ==> now == was && found != null && Morph(shown[found], w.ns[i]) == shown[found]
      requires found != null && Morph(shown[found], w.ns[i]) == shown[found] && |was| > |placed| && was[|placed|] == found ==> spent == 0
      ensures Progress(i + 1, w, same, start, now, seen + {w.ns[i].attrs[KEY_ATTR]}, target, placed + [target], more + gained,
                       shown[target := w.want[i]], calls + spent)
    {
      AllReadyAt(w, byKey, start, same, |w.ns|, i);
      RowFound(w, byKey, placed, more, shown, start, same);
      RowJoins(w, placed, more, shown, target, gained);
      OthersStay(shown, start, placed, target, w.want[i]);
    }

    /** byKey.get(key) */
    static function Found(byKey: map<string, Node>, key: string): Node? { if key in byKey then byKey[key] else null }

    /** What looking a row's key up gives: the node planned for it, not placed and showing what it did
        at the start, or nothing. */
    static lemma RowFound(w: Walk, byKey: map<string, Node>, placed: seq<Node>, more: set<Node>, shown: map<Node, Tree>,
                          start: map<Node, Tree>, same: bool)
      requires w.Sized() && Distinct(w.nodes) && |placed| < |w.ns| && Ready(w, byKey, start, same, |placed|)
      requires RowsDone(w, placed, more, shown, |placed|) && shown - Members(placed) == start - Members(placed)
      ensures
        var row := w.ns[|placed|];
        var key := row.attrs[KEY_ATTR];
        row.kind == Element &&
        if key in byKey then
          var f := byKey[key];
          && f in w.nodes && f !in placed && f.kind == Element
          && w.plan[|placed|].Some? && f == w.nodes[w.plan[|placed|].value]
          && f in shown && shown[f] == w.os[w.plan[|placed|].value]
          && KeysOk(shown[f], row) && w.want[|placed|] == Morph(shown[f], row)
        else w.plan[|placed|].None? && w.want[|placed|] == Copy(row)
    {
      if w.plan[|placed|].Some? {
        StillWaiting(w, byKey, placed, more, shown);
        assert byKey[w.ns[|placed|].attrs[KEY_ATTR]] in start - Members(placed);
      }
    }

    /** The same in terms of what was found. */
    static lemma LookedUp(i: nat, w: Walk, byKey: map<string, Node>, same: bool, start: map<Node, Tree>, s: Stage)
      requires w.Sized() && Distinct(w.nodes) && i < |w.ns| && AllReady(w, byKey, start, same, |w.ns|)
      requires |s.placed| == i && RowsDone(w, s.placed, s.more, s.shown, i)
      requires s.shown - Members(s.placed) == start - Members(s.placed)
      ensures KEY_ATTR in w.ns[i].attrs
      ensures
        var row := w.ns[i];
        var found := Found(byKey, row.attrs[KEY_ATTR]);
        if found != null then
          && found in w.nodes && found !in s.placed && found.kind == Element && row.kind == Element
          && found in s.shown && KeysOk(s.shown[found], row) && w.want[i] == Morph(s.shown[found], row)
        else w.want[i] == Copy(row)
    {
      AllReadyAt(w, byKey, start, same, |w.ns|, i);
      RowFound(w, byKey, s.placed, s.more, s.shown, start, same);
    }

    /** One iteration of the keyed walk: look the row's key up, patch or clone, and put the node after the cursor. */
    method WalkRow(i: nat, row: Tree, byKey: map<string, Node>, seen: set<string>, cursor: Node?,
                   ghost w: Walk, ghost same: bool, ghost start: map<Node, Tree>, ghost below: set<Node>, ghost s: Stage)
      returns (seen': set<string>, target: Node, ghost s': Stage)
      requires w.Sized() && Distinct(w.nodes) && i < |w.ns| && row == w.ns[i] && AllReady(w, byKey, start, same, |w.ns|)
      requires Walking(i, w, same, start, below, seen, cursor, s)
      modifies this`children, below, s.more
      decreases row, 6
      ensures fresh(s'.more - s.more)
      ensures Walking(i + 1, w, same, start, below, seen', target, s')
    {
      LookedUp(i, w, byKey, same, start, s);
      var key := row.attrs[KEY_ATTR];
      seen' := seen + {key};
      var found := Found(byKey, key);
      ghost var was := children;
      ghost var gained, spent;
      target, spent, gained := PlaceRow(row, found, cursor, s.placed, w.nodes, s.shown, below + s.more);
      RowWalked(i, w, byKey, same, start, was, seen, cursor, s.placed, s.more, s.shown, s.calls, found, children, target, gained, spent);
      s' := Stage(s.placed + [target], s.more + gained, s.shown[target := w.want[i]], s.calls + spent);
      assert below + s.more + gained == below + s'.more;
    }

    /** The loop over the rows: afterwards the children are the rows' nodes, in order,
        followed by the old nodes no row named. */
    method WalkRows(ns: seq<Tree>, byKey: map<string, Node>, ghost w: Walk, ghost same: bool, ghost start: map<Node, Tree>,
                    ghost below: set<Node>)
      returns (seen: set<string>, cursor: Node?, ghost s: Stage)
      requires w.Sized() && Distinct(w.nodes) && ns == w.ns && AllReady(w, byKey, start, same, |ns|)
      requires Walking(0, w, same, start, below, {}, null, Stage([], {}, start, 0))
      modifies this`children, below
      decreases ns, 0
      ensures fresh(s.more) && Walking(|ns|, w, same, start, below, seen, cursor, s)
    {
      seen, cursor, s := {}, null, Stage([], {}, start, 0);
      for i := 0 to |ns|
        invariant fresh(s.more) && Walking(i, w, same, start, below, seen, cursor, s)
      {
        var target;
        seen, target, s := WalkRow(i, ns[i], byKey, seen, cursor, w, same, start, below, s);
        cursor := target;
      }
    }

    lemma KeysSeen(seen: set<string>, cursor: Node?, byKey: map<string, Node>, w: Walk, same: bool, start: map<Node, Tree>,
                   below: set<Node>, s: Stage)
      requires w.Sized() && Distinct(w.nodes) && RowsOk(w, byKey, |w.ns|) && OldsOk(w, |w.os|)
      requires StartsAs(w, start, |w.os|)
      requires Walking(|w.ns|, w, same, start, below, seen, cursor, s)
      ensures forall o <- w.nodes :: KEY_ATTR in o.attrs && (o.attrs[KEY_ATTR] in seen <==> o in s.placed)
    {
      forall o | o in w.nodes ensures KEY_ATTR in o.attrs && (o.attrs[KEY_ATTR] in seen <==> o in s.placed) {
        var k :| 0 <= k < |w.nodes| && w.nodes[k] == o;
        OldsOkAt(w, |w.os|, k);
        StartsAsAt(w, start, |w.os|, k);
        PlacedIffSeen(w, byKey, start, s.placed, s.more, s.shown, k);
        assert o in children;
      }
    }

    /** Once every row is done the old nodes left over are those whose key no row has; sweep them. */
    method Sweep(oldNodes: seq<Node>, seen: set<string>, ghost cursor: Node?, ghost byKey: map<string, Node>, ghost w: Walk,
                 ghost same: bool, ghost start: map<Node, Tree>,
                 ghost below: set<Node>, ghost s: Stage)
      returns (ghost calls: nat)
      requires w.Sized() && oldNodes == w.nodes && Distinct(w.nodes) && RowsOk(w, byKey, |w.ns|) && OldsOk(w, |w.os|)
      requires StartsAs(w, start, |w.os|)
      requires Walking(|w.ns|, w, same, start, below, seen, cursor, s)
      modifies this`children
      ensures children == s.placed && Forest(children, below + s.more) && Shown(children, s.shown)
      ensures calls == 0 <==> old(children) == s.placed
    {
      KeysSeen(seen, cursor, byKey, w, same, start, below, s);
      PartsDistinct(s.placed, Without(w.nodes, Members(s.placed)));
      ForestOf(children, s.placed, below + s.more);
      calls := RemoveUnseen(oldNodes, seen, s.placed);
    }

    lemma WalkStarts(w: Walk, same: bool, start: map<Node, Tree>, below: set<Node>)
      requires this !in below && Forest(children, below) && Shown(children, start)
      requires w.Sized() && w.nodes == children
      ensures Walking(0, w, same, start, below, {}, null, Stage([], {}, start, 0))
    {
      WithoutNone(children, {});
      assert [] + children == children && Members<Node>([]) == {};
      assert below + {} == below;
    }

    /** Walk the rows, then sweep. */
    method ReconcileKeyed(ns: seq<Tree>, byKey: map<string, Node>, ghost w: Walk, ghost same: bool, ghost start: map<Node, Tree>,
                          ghost below: set<Node>)
      returns (ghost placed: seq<Node>, ghost shown: map<Node, Tree>, ghost calls: nat, ghost more: set<Node>)
      requires this !in below && Forest(children, below) && Shown(children, start)
      requires w.Sized() && w.nodes == children && ns == w.ns && RowsOk(w, byKey, |ns|) && OldsOk(w, |w.os|)
      requires StartsAs(w, start, |w.os|)
      requires same ==> |w.os| == |ns| && SameRows(w, |ns|)
      modifies this`children, below
      decreases ns, 1
      ensures fresh(more) && Forest(children, below + more) && Shown(children, shown)
      ensures children == placed && |placed| == |ns| && RowsDone(w, placed, more, shown, |placed|)
      ensures calls == 0 ==> children == old(children) && shown == start
      ensures same ==> calls == 0
    {
      var oldNodes := children;
      WalkStarts(w, same, start, below);
      RowsReady(w, byKey, start, same, |ns|);
      var seen, cursor;
      ghost var s;
      seen, cursor, s := WalkRows(ns, byKey, w, same, start, below);
      ghost var dropped := Sweep(oldNodes, seen, cursor, byKey, w, same, start, below, s);
      placed, shown, calls, more := s.placed, s.shown, s.calls + dropped, s.more;
    }

    /** The walk that reconciles nodes showing os with rows ns, and the trees they show before it. */
    static lemma PlanReady(nodes: seq<Node>, os: seq<Tree>, ns: seq<Tree>, byKey: map<string, Node>, region: set<Node>)
      returns (w: Walk, start: map<Node, Tree>)
      requires Forest(nodes, region) && Tracks(nodes, os) && Keyed(os, ns) && KeysOkKids(os, ns) && MapHolds(byKey, nodes, os)
      ensures w.ns == ns && w.os == os && w.nodes == nodes && w.plan == Plan(os, ns) && w.want == MorphKids(os, ns)
      ensures w.Sized() && RowsOk(w, byKey, |ns|) && OldsOk(w, |os|) && Shown(nodes, start) && StartsAs(w, start, |os|)
      ensures MorphKids(os, ns) == os ==> |os| == |ns| && SameRows(w, |ns|)
    {
      w := Walk(ns, nodes, os, Plan(os, ns), MorphKids(os, ns));
      AttrsShown(nodes, os, region);
      forall o | o in nodes ensures o.kind == Element {
        var k :| 0 <= k < |nodes| && nodes[k] == o;
        assert os[k] in os;
      }
      PlanHolds(w, byKey, |ns|);
      OldsHold(w, |os|);
      if MorphKids(os, ns) == os {
        UnchangedIsSame(w, |ns|);
      }
      start := map c | c in nodes :: c.tree;
      StartsAsTracked(w, start, |os|);
    }

    /** Done rows show the template's trees, on the nodes that were matched. */
    static lemma Delivered(w: Walk, placed: seq<Node>, more: set<Node>, shown: map<Node, Tree>)
      requires w.Sized() && |placed| == |w.ns| && RowsDone(w, placed, more, shown, |placed|) && Shown(placed, shown)
      requires w.plan == Plan(w.os, w.ns)
      ensures Tracks(placed, w.want) && Reused(w.os, w.ns, w.nodes, placed)
      ensures forall j :: 0 <= j < |w.ns| && Match(w.os, w.ns, j).None? ==> placed[j] in more
    {
      forall j | 0 <= j < |w.ns| ensures RowDone(w, placed, more, shown, j) && placed[j].tree == w.want[j] {
        RowsDoneAt(w, placed, more, shown, |placed|, j);
        assert placed[j] in placed;
      }
    }

    /** The walk by its plan: the rows' trees on the rows' nodes. */
    method WalkByPlan(ns: seq<Tree>, byKey: map<string, Node>, ghost w: Walk, ghost same: bool, ghost start: map<Node, Tree>,
                      ghost below: set<Node>)
      returns (ghost calls: nat, ghost more: set<Node>)
      requires this !in below && Forest(children, below) && Shown(children, start)
      requires w.Sized() && w.nodes == children && ns == w.ns && RowsOk(w, byKey, |ns|) && OldsOk(w, |w.os|)
      requires StartsAs(w, start, |w.os|) && Tracks(children, w.os) && w.plan == Plan(w.os, w.ns)
      requires same ==> |w.os| == |ns| && SameRows(w, |ns|)
      modifies this`children, below
      decreases ns, 2
      ensures fresh(more) && Forest(children, below + more)
      ensures Tracks(children, w.want) && Reused(w.os, ns, w.nodes, children)
      ensures forall j :: 0 <= j < |ns| && Match(w.os, ns, j).None? ==> children[j] in more
      ensures calls == 0 ==> children == old(children) && Tracks(children, w.os)
      ensures same ==> calls == 0
    {
      ghost var placed, shown;
      placed, shown, calls, more := ReconcileKeyed(ns, byKey, w, same, start, below);
      Delivered(w, placed, more, shown);
      if calls == 0 {
        StartTracked(w, start);
      }
    }

    /** Nodes that show what they showed at the start show the old trees. */
    static lemma StartTracked(w: Walk, start: map<Node, Tree>)
      requires w.Sized() && StartsAs(w, start, |w.os|) && Shown(w.nodes, start)
      ensures Tracks(w.nodes, w.os)
    {
      forall k | 0 <= k < |w.os| ensures w.nodes[k].tree == w.os[k] {
        StartsAsAt(w, start, |w.os|, k);
        assert w.nodes[k] in w.nodes;
      }
    }

    method PatchKeyed(ns: seq<Tree>, ghost os: seq<Tree>, ghost below: set<Node>)
      returns (ghost calls: nat, ghost more: set<Node>)
      requires this !in below && Forest(children, below) && Tracks(children, os)
      requires KeysOkKids(os, ns) && Keyed(os, ns)
      modifies this`children, below
      decreases ns, 3
      ensures fresh(more) && Forest(children, below + more)
      ensures Tracks(children, MorphKids(os, ns)) && Reused(os, ns, old(children), children)
      ensures forall j :: 0 <= j < |ns| && Match(os, ns, j).None? ==> fresh(children[j])
      ensures calls == 0 ==> children == old(children) && Tracks(children, os)
      ensures MorphKids(os, ns) == os ==> calls == 0
    {
      var byKey := IndexByKey(children, os, below);
      ghost var w, start := PlanReady(children, os, ns, byKey, below);
      calls, more := WalkByPlan(ns, byKey, w, MorphKids(os, ns) == os, start, below);
    }

    /** patch() on one container, twice with the same template: the second makes no mutating call,
        whether or not the tags of keyed rows let the first reach the template. */
    method PatchTwice(ns: seq<Tree>) returns (ghost first: nat, ghost second: nat)
      requires Valid() && WellKeyedKids(ns) && KeysOkKids(tree.kids, ns)
      modifies Repr
      ensures Valid() && tree == old(tree).(kids := MorphKids(old(tree.kids), ns))
      ensures second == 0
      ensures first == 0 <==> old(MorphKids(tree.kids, ns) == tree.kids)
      ensures AgreesKids(tree.kids, ns) <==> old(TagsMatchKids(tree.kids, ns))
      ensures old(TagsMatchKids(tree.kids, ns)) ==> (first == 0 <==> old(AgreesKids(tree.kids, ns)))
    {
      MorphIdempotent(tree.kids, ns);
      MorphKidsAgree(tree.kids, ns);
      if TagsMatchKids(tree.kids, ns) {
        UnchangedWhenAgreeing(tree.kids, ns);
      }
      first := PatchChildren(ns);
      second := PatchChildren(ns);
    }

    // ----- the nodes themselves, all the way down -----

    /** This node and every node below it, at their places. */
    ghost function Shape(): Shape
      requires Valid()
      reads this, Repr
      decreases Repr
    {
      Place(this, seq(|children|, i requires Valid() && 0 <= i < |children| reads this, Repr => children[i].Shape()))
    }

    /** This node and every node below it. */
    ghost function Live(): (live: set<Node>)
      requires Valid()
      reads this, Repr
      decreases Repr
      ensures live <= Repr
    {
      {this} + set c, x | c in children && x in c.Live() :: x
    }

    /** A tree whose every node is known shows which nodes these are. */
    static lemma {:induction false} KnownShape(x: Node, t: Tree)
      requires x.Valid() && x.tree == t && Known(t)
      ensures x.Shape() == ShapeOf(t)
      decreases t
    {
      forall i | 0 <= i < |x.children| ensures x.children[i].Shape() == ShapeOf(t.kids[i]) {
        KnownShape(x.children[i], t.kids[i]);
      }
    }

    /** Nodes that a patched tree takes over from a known one are the old nodes. */
    static lemma {:induction false} KeptHolds(o: Tree, n: Tree, x: Node)
      requires x.Valid() && Known(o) && x.tree == Morph(o, n)
      ensures Kept(ShapeOf(o), o, n, x.Shape())
      decreases n, 1
    {
      if o.kind.Element? && PRESERVE_ATTR !in n.attrs {
        KeptKidsHold(ShapeOf(o).kids, o.kids, n.kids, x.children, x.Shape().kids);
      } else {
        forall i | 0 <= i < |o.kids| ensures x.children[i].Shape() == ShapeOf(o.kids[i]) {
          KnownShape(x.children[i], o.kids[i]);
        }
        assert x.Shape().kids == ShapeOf(o).kids;
      }
    }

    static lemma {:induction false} KeptKidsHold(was: seq<Shape>, os: seq<Tree>, ns: seq<Tree>, xs: seq<Node>, now: seq<Shape>)
      requires |was| == |os| && forall i :: 0 <= i < |os| ==> Known(os[i]) && was[i] == ShapeOf(os[i])
      requires |now| == |xs| == |ns|
      requires forall j :: 0 <= j < |xs| ==> xs[j].Valid() && xs[j].tree == MorphKids(os, ns)[j] && now[j] == xs[j].Shape()
      ensures KeptKids(was, os, ns, now)
      decreases ns, 0
    {
      forall j | 0 <= j < |ns| && Match(os, ns, j).Some?
        ensures Kept(was[Match(os, ns, j).value], os[Match(os, ns, j).value], ns[j], now[j])
      {
        KeptHolds(os[Match(os, ns, j).value], ns[j], xs[j]);
      }
    }

    /** Make every node known in the trees shown; nothing of the document changes. */
    ghost method Remember()
      requires Valid()
      modifies Repr`tree
      decreases Repr, 1
      ensures Valid() && Known(tree) && Copy(tree) == old(Copy(tree)) && ShapeOf(tree) == old(Shape())
    {
      RememberBelow();
      tree := tree.(kids := seq(|children|, i requires 0 <= i < |children| reads this, children => children[i].tree), origin := this);
    }

    /** The same for the children. */
    ghost method RememberBelow()
      requires Valid()
      modifies (Repr - {this})`tree
      decreases Repr, 0
      ensures forall c <- children :: c.Valid()
      ensures forall i :: 0 <= i < |children| ==> Remembers(children[i])
    {
      for i := 0 to |children|
        invariant forall c <- children :: c.Valid()
        invariant forall j :: 0 <= j < i ==> Remembers(children[j])
        invariant forall j :: i <= j < |children| ==> unchanged(children[j].Repr)
      {
        children[i].Remember();
      }
    }

    /** The node is known and otherwise as it was. */
    static twostate predicate Remembers(x: Node)
      requires old(x.Valid())
      reads x
    {
      Known(x.tree) && Copy(x.tree) == old(Copy(x.tree)) && ShapeOf(x.tree) == old(x.Shape())
    }

    /** No attribute, text or child list of the node changed. */
    static twostate predicate Untouched(x: Node)
      reads x
    {
      x.attrs == old(x.attrs) && x.value == old(x.value) && x.children == old(x.children)
    }

    /** The same nodes at the same places showing the same: nothing about any of them changed. */
    twostate lemma {:induction false} NothingChanged()
      requires old(Valid()) && Valid() && Shape() == old(Shape()) && Copy(tree) == Copy(old(tree))
      ensures forall y <- old(Live()) :: Untouched(y)
      decreases old(tree)
    {
      AlikeKids(tree, old(tree));
      assert |Shape().kids| == |children| && |old(Shape()).kids| == |old(children)|;
      forall i | 0 <= i < |children| ensures children[i] == old(children)[i] && children[i].Shape() == old(children[i].Shape()) {
        assert Shape().kids[i] == old(Shape()).kids[i];
        assert Shape().kids[i].node == children[i] && old(Shape()).kids[i].node == old(children)[i];
      }
      assert children == old(children);
      forall y | y in old(Live()) ensures Untouched(y) {
        if y != this {
          var c :| c in old(children) && y in old(c.Live());
          var i :| 0 <= i < |children| && children[i] == c;
          c.NothingChanged();
        }
      }
    }

    /** What a known tree says of the one before nothing was known. */
    static lemma AsBefore(os: seq<Tree>, ps: seq<Tree>, ns: seq<Tree>)
      requires Alike(os, ps) && KeysOkKids(os, ns)
      ensures KeysOkKids(ps, ns) && Alike(MorphKids(ps, ns), MorphKids(os, ns))
      ensures MorphKids(os, ns) == os <==> MorphKids(ps, ns) == ps
    {
      KeysOkKidsAlike(os, ps, ns);
      MorphKidsAlike(ps, os, ns);
      if MorphKids(os, ns) == os {
        UnchangedKidsAlike(os, ps, ns);
      }
      if MorphKids(ps, ns) == ps {
        UnchangedKidsAlike(ps, os, ns);
      }
    }

    static lemma AsKept(os: seq<Tree>, ps: seq<Tree>, ns: seq<Tree>, was: seq<Node>, now: seq<Node>)
      requires Alike(os, ps) && KeysOkKids(os, ns) && Reused(ps, ns, was, now)
      ensures RowsKeepNodes(os, ns, was, now)
    {
      forall j | 0 <= j < |ns| ensures Match(os, ns, j) == Match(ps, ns, j) {
        MatchAlike(os, ps, ns, j);
      }
      KeysKeepNodes(os, ns, was, now);
    }

    /** patch(), on the template parsed from the html: the children show what the morph gives; every node
        matched, at any depth, is the same node as before, and below a preserved one so is everything; no
        call is made if and only if the patch changes nothing, and then no attribute, text or child list
        of any node changes. */
    method Patch(ns: seq<Tree>) returns (ghost calls: nat)
      requires Valid() && KeysOkKids(tree.kids, ns)
      modifies Repr
      ensures Valid() && fresh(Repr - old(Repr))
      ensures Copy(tree) == Copy(old(tree).(kids := MorphKids(old(tree.kids), ns)))
      ensures KeptKids(old(Shape()).kids, old(tree.kids), ns, Shape().kids)
      ensures RowsKeepNodes(old(tree.kids), ns, old(children), children)
      ensures calls == 0 <==> old(MorphKids(tree.kids, ns) == tree.kids)
      ensures calls == 0 ==> forall x <- old(Live()) :: Untouched(x)
    {
      ghost var before, was := tree, Shape();
      Remember();
      ghost var known := tree;
      AlikeKids(before, known);
      AsBefore(before.kids, known.kids, ns);
      ghost var nodes := children;
      calls := PatchChildren(ns);
      AsKept(before.kids, known.kids, ns, nodes, children);
      KeptKidsHold(was.kids, known.kids, ns, children, Shape().kids);
      KeptKidsAlike(was.kids, known.kids, before.kids, ns, Shape().kids);
      CopiedKids(tree, before.(kids := MorphKids(before.kids, ns)));
      if calls == 0 {
        KnownShape(this, known);
        NothingChanged();
      }
    }
  }
}
