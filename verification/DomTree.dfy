/** The trees the morph relates, as values, and what patching one into another
    must produce (dashboard/dom.js). The in-place algorithm is in DomMorph.dfy. */
module DomTree {
  import opened Wrappers

  // data-preserve: a subtree whose children another painter owns
  const PRESERVE_ATTR := "data-preserve"
  // data-k: a row's stable identity
  const KEY_ATTR := "data-k"

  datatype Kind = Element | Text | Comment

  /** One node with its subtree: nodeType, nodeName, nodeValue, attributes and childNodes. `origin` is
      the live node known to stand there, null in a template and for a node made from one. */
  datatype Tree = Tree(kind: Kind, name: string, value: string, attrs: map<string, string>, kids: seq<Tree>, origin: object?)

  /** What node.cloneNode(true) gives: the same in everything, but made of new nodes. */
  function Copy(t: Tree): Tree {
    t.(kids := seq(|t.kids|, i requires 0 <= i < |t.kids| => Copy(t.kids[i])), origin := null)
  }

  /** The template `n` has the node kind and tag that let the live node be patched rather than replaced. */
  predicate SameNode(o: Tree, n: Tree) {
    o.kind == n.kind && o.name == n.name
  }

  predicate IsKeyed(ts: seq<Tree>) {
    |ts| > 0 && forall t <- ts :: t.kind.Element? && KEY_ATTR in t.attrs
  }

  predicate HasKey(t: Tree, key: string) {
    KEY_ATTR in t.attrs && t.attrs[KEY_ATTR] == key
  }

  /** The index a key-to-node Map holds for `key` after setting every node in order: the last one wins. */
  function LookupKey(ts: seq<Tree>, key: string): (r: Option<nat>)
    ensures r.Some? ==> r.value < |ts| && HasKey(ts[r.value], key)
    ensures r.None? ==> forall i :: 0 <= i < |ts| ==> !HasKey(ts[i], key)
  {
    if |ts| == 0 then None
    else if HasKey(ts[|ts| - 1], key) then Some(|ts| - 1)
    else LookupKey(ts[..|ts| - 1], key)
  }

  predicate UniqueKeys(ts: seq<Tree>)
    requires IsKeyed(ts)
  {
    forall i, j :: 0 <= i < j < |ts| ==> ts[i].attrs[KEY_ATTR] != ts[j].attrs[KEY_ATTR]
  }

  // ----- which old child, if any, the j-th new child is reconciled with -----

  predicate Keyed(os: seq<Tree>, ns: seq<Tree>) {
    IsKeyed(ns) && IsKeyed(os)
  }

  /** The old child the j-th new child is matched with: by key when both lists are
      keyed, by position otherwise. A positional match of a different node is no match. */
  function Match(os: seq<Tree>, ns: seq<Tree>, j: nat): (r: Option<nat>)
    requires j < |ns|
    ensures r.Some? ==> r.value < |os|
    ensures r.Some? && !Keyed(os, ns) ==> r.value == j && SameNode(os[j], ns[j])
    ensures r.Some? && Keyed(os, ns) ==> os[r.value].kind.Element? && ns[j].kind.Element?
  {
    if Keyed(os, ns) then LookupKey(os, ns[j].attrs[KEY_ATTR])
    else if j < |os| && SameNode(os[j], ns[j]) then Some(j)
    else None
  }

  // ----- the result of a patch -----

  /** What an old node matched with template `n` becomes. */
  function Morph(o: Tree, n: Tree): Tree
    decreases n, 1
  {
    if o.kind.Element? then
      o.(attrs := n.attrs, kids := if PRESERVE_ATTR in n.attrs then o.kids else MorphKids(o.kids, n.kids))
    else o.(value := n.value)
  }

  function MorphKids(os: seq<Tree>, ns: seq<Tree>): (r: seq<Tree>)
    ensures |r| == |ns|
    decreases ns, 0
  {
    seq(|ns|, j requires 0 <= j < |ns| =>
      match Match(os, ns, j)
      case Some(i) => Morph(os[i], ns[j])
      case None => Copy(ns[j]))
  }

  // ----- agreement with the template -----

  /** `x` shows what template `n` asks for: same kind, tag, attributes and text, and the
      same children in the same order, except that a preserved node's children are free. */
  predicate Agrees(x: Tree, n: Tree)
    decreases n, 1
  {
    SameNode(x, n) &&
    if n.kind.Element? then x.attrs == n.attrs && (PRESERVE_ATTR in n.attrs || AgreesKids(x.kids, n.kids))
    else x.value == n.value
  }

  predicate AgreesKids(xs: seq<Tree>, ns: seq<Tree>)
    decreases ns, 0
  {
    |xs| == |ns| && forall j :: 0 <= j < |ns| ==> Agrees(xs[j], ns[j])
  }

  /** Every pair the algorithm matches has equal tags. The keyed path never checks this itself. */
  predicate TagsMatch(o: Tree, n: Tree)
    decreases n, 1
  {
    SameNode(o, n) && (n.kind.Element? && PRESERVE_ATTR !in n.attrs ==> TagsMatchKids(o.kids, n.kids))
  }

  predicate TagsMatchKids(os: seq<Tree>, ns: seq<Tree>)
    decreases ns, 0
  {
    forall j :: 0 <= j < |ns| && Match(os, ns, j).Some? ==> TagsMatch(os[Match(os, ns, j).value], ns[j])
  }

  /** Keys are unique within both lists wherever the algorithm reconciles by key. */
  predicate KeysOk(o: Tree, n: Tree)
    decreases n, 1
  {
    o.kind.Element? && PRESERVE_ATTR !in n.attrs ==> KeysOkKids(o.kids, n.kids)
  }

  predicate KeysOkKids(os: seq<Tree>, ns: seq<Tree>)
    decreases ns, 0
  {
    (Keyed(os, ns) ==> UniqueKeys(os) && UniqueKeys(ns)) &&
    forall j :: 0 <= j < |ns| && Match(os, ns, j).Some? ==> KeysOk(os[Match(os, ns, j).value], ns[j])
  }

  /** Keys are unique in every keyed list of a template. */
  predicate WellKeyed(n: Tree) {
    WellKeyedKids(n.kids)
  }

  predicate WellKeyedKids(ns: seq<Tree>) {
    (IsKeyed(ns) ==> UniqueKeys(ns)) && forall n <- ns :: WellKeyed(n)
  }

  // ----- properties -----

  lemma {:induction false} CopyAgrees(n: Tree)
    ensures Agrees(Copy(n), n)
    decreases n, 1
  {
    forall j | 0 <= j < |n.kids| ensures Agrees(Copy(n).kids[j], n.kids[j]) {
      CopyAgrees(n.kids[j]);
    }
  }

  /** The patched tree shows the template exactly when every matched pair has equal tags. */
  lemma {:induction false} MorphAgrees(o: Tree, n: Tree)
    requires o.kind == n.kind
    ensures Agrees(Morph(o, n), n) <==> TagsMatch(o, n)
    decreases n, 1
  {
    if n.kind.Element? && PRESERVE_ATTR !in n.attrs {
      MorphKidsAgree(o.kids, n.kids);
    }
  }

  lemma {:induction false} MorphKidsAgree(os: seq<Tree>, ns: seq<Tree>)
    ensures AgreesKids(MorphKids(os, ns), ns) <==> TagsMatchKids(os, ns)
    decreases ns, 0
  {
    var r := MorphKids(os, ns);
    forall j | 0 <= j < |ns|
      ensures Agrees(r[j], ns[j]) <==> (Match(os, ns, j).Some? ==> TagsMatch(os[Match(os, ns, j).value], ns[j]))
    {
      match Match(os, ns, j)
      case Some(i) => MorphAgrees(os[i], ns[j]);
      case None => CopyAgrees(ns[j]);
    }
  }

  /** Once a tree shows the template, patching it again pairs every node with itself. */
  lemma {:induction false} AgreementIsStable(x: Tree, n: Tree)
    requires WellKeyed(n) && Agrees(x, n)
    ensures KeysOk(x, n) && TagsMatch(x, n) && Morph(x, n) == x
    decreases n, 1
  {
    if n.kind.Element? && PRESERVE_ATTR !in n.attrs {
      AgreementOfKidsIsStable(x.kids, n.kids);
    }
  }

  lemma {:induction false} AgreementOfKidsIsStable(xs: seq<Tree>, ns: seq<Tree>)
    requires WellKeyedKids(ns) && AgreesKids(xs, ns)
    ensures KeysOkKids(xs, ns) && TagsMatchKids(xs, ns) && MorphKids(xs, ns) == xs
    decreases ns, 0
  {
    forall j | 0 <= j < |ns| ensures Match(xs, ns, j) == Some(j) {
      assert Agrees(xs[j], ns[j]);
      AgreementMatches(xs, ns, j);
    }
    forall j | 0 <= j < |ns|
      ensures KeysOk(xs[j], ns[j]) && TagsMatch(xs[j], ns[j]) && Morph(xs[j], ns[j]) == xs[j]
    {
      assert ns[j] in ns;
      AgreementIsStable(xs[j], ns[j]);
    }
    assert MorphKids(xs, ns) == xs;
  }

  /** Rows that have their template's kinds and attributes are matched with it place by place. */
  lemma PairsMatch(xs: seq<Tree>, ns: seq<Tree>, j: nat)
    requires j < |ns| == |xs|
    requires forall i :: 0 <= i < |ns| ==> xs[i].kind == ns[i].kind && (ns[i].kind.Element? ==> xs[i].attrs == ns[i].attrs)
    requires if IsKeyed(ns) then UniqueKeys(ns) else SameNode(xs[j], ns[j])
    ensures IsKeyed(ns) <==> IsKeyed(xs)
    ensures IsKeyed(xs) ==> UniqueKeys(xs)
    ensures Match(xs, ns, j) == Some(j)
  {
    if IsKeyed(ns) {
      forall i | 0 <= i < |xs| ensures xs[i].attrs[KEY_ATTR] == ns[i].attrs[KEY_ATTR] {
        assert ns[i] in ns;
      }
      forall x | x in xs ensures x.kind.Element? && KEY_ATTR in x.attrs {
        var i :| 0 <= i < |xs| && xs[i] == x;
        assert ns[i] in ns;
      }
    }
    if IsKeyed(xs) {
      forall n | n in ns ensures n.kind.Element? && KEY_ATTR in n.attrs {
        var i :| 0 <= i < |ns| && ns[i] == n;
        assert xs[i] in xs;
      }
    }
  }

  lemma AgreementMatches(xs: seq<Tree>, ns: seq<Tree>, j: nat)
    requires j < |ns| && AgreesKids(xs, ns)
    requires IsKeyed(ns) ==> UniqueKeys(ns)
    ensures IsKeyed(ns) <==> IsKeyed(xs)
    ensures IsKeyed(xs) ==> UniqueKeys(xs)
    ensures Match(xs, ns, j) == Some(j)
  {
    forall i | 0 <= i < |ns| ensures xs[i].kind == ns[i].kind && (ns[i].kind.Element? ==> xs[i].attrs == ns[i].attrs) {
      assert Agrees(xs[i], ns[i]);
    }
    assert Agrees(xs[j], ns[j]);
    PairsMatch(xs, ns, j);
  }

  // ----- patching twice -----

  /** What a patch made is matched with the template place by place, tags or no tags. */
  lemma MorphMatches(os: seq<Tree>, ns: seq<Tree>, j: nat)
    requires j < |ns| && (IsKeyed(ns) ==> UniqueKeys(ns))
    ensures
      var xs := MorphKids(os, ns);
      (IsKeyed(xs) <==> IsKeyed(ns)) && (IsKeyed(xs) ==> UniqueKeys(xs)) && Match(xs, ns, j) == Some(j)
  {
    var xs := MorphKids(os, ns);
    forall i | 0 <= i < |ns| ensures xs[i].kind == ns[i].kind && (ns[i].kind.Element? ==> xs[i].attrs == ns[i].attrs) {
      assert xs[i] == if Match(os, ns, i).Some? then Morph(os[Match(os, ns, i).value], ns[i]) else Copy(ns[i]);
    }
    if !IsKeyed(ns) {
      assert xs[j] == if Match(os, ns, j).Some? then Morph(os[j], ns[j]) else Copy(ns[j]);
      assert SameNode(xs[j], ns[j]);
    }
    PairsMatch(xs, ns, j);
  }

  lemma {:induction false} MorphTwice(o: Tree, n: Tree)
    requires WellKeyed(n) && o.kind == n.kind
    ensures KeysOk(Morph(o, n), n) && Morph(Morph(o, n), n) == Morph(o, n)
    decreases n, 1
  {
    if n.kind.Element? && PRESERVE_ATTR !in n.attrs {
      MorphIdempotent(o.kids, n.kids);
    }
  }

  /** Patching twice with one template is patching once; only its keys must be unique. */
  lemma {:induction false} MorphIdempotent(os: seq<Tree>, ns: seq<Tree>)
    requires WellKeyedKids(ns)
    ensures MorphKids(MorphKids(os, ns), ns) == MorphKids(os, ns)
    ensures KeysOkKids(MorphKids(os, ns), ns)
    decreases ns, 0
  {
    var xs := MorphKids(os, ns);
    forall j | 0 <= j < |ns|
      ensures Match(xs, ns, j) == Some(j) && KeysOk(xs[j], ns[j]) && Morph(xs[j], ns[j]) == xs[j]
    {
      assert ns[j] in ns;
      MorphMatches(os, ns, j);
      match Match(os, ns, j)
      case Some(i) => MorphTwice(os[i], ns[j]);
      case None =>
        CopyAgrees(ns[j]);
        AgreementIsStable(Copy(ns[j]), ns[j]);
    }
    if Keyed(xs, ns) {
      MorphMatches(os, ns, 0);
    }
    assert MorphKids(xs, ns) == xs;
  }

  // ----- patches that change nothing -----

  /** When a patch changes nothing every row is matched with the old child at its own place. */
  lemma UnchangedMatches(os: seq<Tree>, ns: seq<Tree>, j: nat)
    requires MorphKids(os, ns) == os && j < |ns| && (Keyed(os, ns) ==> UniqueKeys(os))
    ensures Match(os, ns, j) == Some(j) && Morph(os[j], ns[j]) == os[j]
  {
    assert os[j] == MorphKids(os, ns)[j];
    if Keyed(os, ns) {
      assert ns[j] in ns;
      assert HasKey(os[j], ns[j].attrs[KEY_ATTR]);
      var i := Match(os, ns, j).value;
      assert os[i].attrs[KEY_ATTR] == os[j].attrs[KEY_ATTR];
    }
  }

  /** Children that show the template are not changed, whatever else the template's keys are like. */
  lemma {:induction false} AgreeingIsUnchanged(x: Tree, n: Tree)
    requires KeysOk(x, n) && Agrees(x, n)
    ensures Morph(x, n) == x
    decreases n, 1
  {
    if n.kind.Element? && PRESERVE_ATTR !in n.attrs {
      AgreeingKidsAreUnchanged(x.kids, n.kids);
    }
  }

  lemma {:induction false} AgreeingKidsAreUnchanged(xs: seq<Tree>, ns: seq<Tree>)
    requires KeysOkKids(xs, ns) && AgreesKids(xs, ns)
    ensures MorphKids(xs, ns) == xs
    decreases ns, 0
  {
    KeyedTogether(xs, ns);
    forall j | 0 <= j < |ns| ensures Match(xs, ns, j) == Some(j) && Morph(xs[j], ns[j]) == xs[j] {
      assert Agrees(xs[j], ns[j]);
      AgreementMatches(xs, ns, j);
      AgreeingIsUnchanged(xs[j], ns[j]);
    }
    assert MorphKids(xs, ns) == xs;
  }

  lemma KeyedTogether(xs: seq<Tree>, ns: seq<Tree>)
    requires AgreesKids(xs, ns)
    ensures IsKeyed(ns) ==> IsKeyed(xs)
  {
    if IsKeyed(ns) {
      forall x | x in xs ensures x.kind.Element? && KEY_ATTR in x.attrs {
        var i :| 0 <= i < |xs| && xs[i] == x;
        assert Agrees(xs[i], ns[i]) && ns[i] in ns;
      }
    }
  }

  /** With matching tags a patch changes nothing exactly when the children already show the template. */
  lemma UnchangedWhenAgreeing(os: seq<Tree>, ns: seq<Tree>)
    requires KeysOkKids(os, ns) && TagsMatchKids(os, ns)
    ensures MorphKids(os, ns) == os <==> AgreesKids(os, ns)
  {
    MorphKidsAgree(os, ns);
    if AgreesKids(os, ns) {
      AgreeingKidsAreUnchanged(os, ns);
    }
  }

  // ----- what matching means -----

  /** When both lists are non-empty and all their members are elements with a key, row j is matched with
      the last old child that has its key, and with none exactly when none has it. Otherwise it is matched
      with the old child at its place, if that has its kind and tag. */
  lemma MatchIs(os: seq<Tree>, ns: seq<Tree>, j: nat, i: nat)
    requires j < |ns|
    ensures
      |os| > 0 && (forall t <- os + ns :: t.kind == Element && "data-k" in t.attrs) ==>
        && (Match(os, ns, j) == Some(i) <==>
              && i < |os| && os[i].attrs["data-k"] == ns[j].attrs["data-k"]
              && forall k :: i < k < |os| ==> os[k].attrs["data-k"] != ns[j].attrs["data-k"])
        && (Match(os, ns, j) == None <==> forall k :: 0 <= k < |os| ==> os[k].attrs["data-k"] != ns[j].attrs["data-k"])
    ensures
      !(|os| > 0 && (forall t <- os + ns :: t.kind == Element && "data-k" in t.attrs)) ==>
        && (Match(os, ns, j) == Some(i) <==> i == j && j < |os| && os[j].kind == ns[j].kind && os[j].name == ns[j].name)
        && (Match(os, ns, j) == None <==> j >= |os| || os[j].kind != ns[j].kind || os[j].name != ns[j].name)
  {
    assert ns[j] in ns;
    KeyedIs(os, ns);
    if Keyed(os, ns) {
      assert forall k :: 0 <= k < |os| ==> os[k] in os;
      LookupKeyIsLast(os, ns[j].attrs[KEY_ATTR]);
    }
  }

  lemma KeyedIs(os: seq<Tree>, ns: seq<Tree>)
    requires |ns| > 0
    ensures Keyed(os, ns) <==> |os| > 0 && forall t <- os + ns :: t.kind == Element && "data-k" in t.attrs
  {
    assert forall t :: t in os + ns <==> t in os || t in ns;
  }

  /** What stands at row j after a patch. A matched node keeps its kind and tag; an element takes the row's
      attributes and, unless the row has data-preserve, as many children as the row has; other nodes take
      the row's text. An unmatched row is copied. */
  lemma RowShows(os: seq<Tree>, ns: seq<Tree>, j: nat)
    requires j < |ns|
    ensures
      var x, n := MorphKids(os, ns)[j], ns[j];
      match Match(os, ns, j)
      case None => x.kind == n.kind && x.name == n.name && x.value == n.value && x.attrs == n.attrs && |x.kids| == |n.kids|
      case Some(i) =>
        var o := os[i];
        && x.kind == o.kind == n.kind && x.name == o.name && x.origin == o.origin
        && (n.kind == Element ==>
              && x.attrs == n.attrs && x.value == o.value
              && (if "data-preserve" in n.attrs then x.kids == o.kids else |x.kids| == |n.kids|))
        && (n.kind != Element ==> x.value == n.value && x.attrs == o.attrs && x.kids == o.kids)
  {
    assert ns[j] in ns;
    if Keyed(os, ns) && Match(os, ns, j).Some? {
      assert os[Match(os, ns, j).value] in os;
    }
  }

  lemma {:induction false} LookupKeyIsLast(ts: seq<Tree>, key: string)
    ensures
      match LookupKey(ts, key)
      case Some(i) => i < |ts| && HasKey(ts[i], key) && forall k :: i < k < |ts| ==> !HasKey(ts[k], key)
      case None => forall k :: 0 <= k < |ts| ==> !HasKey(ts[k], key)
  {
    if |ts| > 0 && !HasKey(ts[|ts| - 1], key) {
      LookupKeyIsLast(ts[..|ts| - 1], key);
    }
  }

  // ----- which node stands where -----

  /** Every node of the tree is a known live one. */
  predicate Known(t: Tree) {
    t.origin != null && forall k <- t.kids :: Known(k)
  }

  /** The nodes of a subtree at their places. */
  datatype Shape = Place(node: object?, kids: seq<Shape>)

  function ShapeOf(t: Tree): Shape {
    Place(t.origin, seq(|t.kids|, i requires 0 <= i < |t.kids| => ShapeOf(t.kids[i])))
  }

  /** From `was` to `now` the node is kept, and below it either everything (an owner's preserved
      subtree) or, again, every matched row. */
  predicate Kept(was: Shape, o: Tree, n: Tree, now: Shape)
    decreases n, 1
  {
    now.node == was.node &&
    if o.kind.Element? && PRESERVE_ATTR !in n.attrs then KeptKids(was.kids, o.kids, n.kids, now.kids) else now.kids == was.kids
  }

  predicate KeptKids(was: seq<Shape>, os: seq<Tree>, ns: seq<Tree>, now: seq<Shape>)
    decreases ns, 0
  {
    && |was| == |os| && |now| == |ns|
    && forall j :: 0 <= j < |ns| && Match(os, ns, j).Some? ==>
      Kept(was[Match(os, ns, j).value], os[Match(os, ns, j).value], ns[j], now[j])
  }

  /** Trees that differ only in what is known of their nodes. */
  predicate Alike(os: seq<Tree>, ps: seq<Tree>) {
    |os| == |ps| && forall i :: 0 <= i < |os| ==> Copy(os[i]) == Copy(ps[i])
  }

  lemma AlikeKids(o: Tree, p: Tree)
    requires Copy(o) == Copy(p)
    ensures o.kind == p.kind && o.name == p.name && o.value == p.value && o.attrs == p.attrs && Alike(o.kids, p.kids)
  {
    CopyParts(o);
    CopyParts(p);
    forall i | 0 <= i < |o.kids| ensures Copy(o.kids[i]) == Copy(p.kids[i]) {
      AlikeKid(o, p, i);
    }
  }

  lemma AlikeKid(o: Tree, p: Tree, i: nat)
    requires Copy(o) == Copy(p) && i < |o.kids| == |p.kids|
    ensures Copy(o.kids[i]) == Copy(p.kids[i])
  {
    CopyKid(o, i);
    CopyKid(p, i);
  }

  lemma CopyParts(t: Tree)
    ensures
      var c := Copy(t);
      c.kind == t.kind && c.name == t.name && c.value == t.value && c.attrs == t.attrs && |c.kids| == |t.kids|
  {
  }

  lemma CopyKid(t: Tree, i: nat)
    requires i < |t.kids|
    ensures |Copy(t).kids| == |t.kids| && Copy(t).kids[i] == Copy(t.kids[i])
  {
  }

  lemma CopiedKids(o: Tree, p: Tree)
    requires o.kind == p.kind && o.name == p.name && o.value == p.value && o.attrs == p.attrs && Alike(o.kids, p.kids)
    ensures Copy(o) == Copy(p)
  {
    assert Copy(o).kids == Copy(p).kids;
  }

  lemma {:induction false} LookupAlike(os: seq<Tree>, ps: seq<Tree>, key: string)
    requires |os| == |ps| && forall i :: 0 <= i < |os| ==> os[i].attrs == ps[i].attrs
    ensures LookupKey(os, key) == LookupKey(ps, key)
  {
    if |os| > 0 && !HasKey(os[|os| - 1], key) {
      LookupAlike(os[..|os| - 1], ps[..|ps| - 1], key);
    }
  }

  lemma KeyedAlike(os: seq<Tree>, ps: seq<Tree>)
    requires Alike(os, ps)
    ensures IsKeyed(os) ==> IsKeyed(ps) && (UniqueKeys(os) ==> UniqueKeys(ps))
  {
    forall i | 0 <= i < |os| ensures os[i].kind == ps[i].kind && os[i].attrs == ps[i].attrs {
      AlikeKids(os[i], ps[i]);
    }
    if IsKeyed(os) {
      forall p | p in ps ensures p.kind.Element? && KEY_ATTR in p.attrs {
        var i :| 0 <= i < |ps| && ps[i] == p;
        assert os[i] in os;
      }
    }
  }

  lemma MatchAlike(os: seq<Tree>, ps: seq<Tree>, ns: seq<Tree>, j: nat)
    requires Alike(os, ps) && j < |ns|
    ensures Keyed(os, ns) <==> Keyed(ps, ns)
    ensures Keyed(os, ns) && UniqueKeys(os) ==> UniqueKeys(ps)
    ensures Match(os, ns, j) == Match(ps, ns, j)
  {
    KeyedAlike(os, ps);
    KeyedAlike(ps, os);
    forall i | 0 <= i < |os| ensures SameNode(os[i], ns[j]) == SameNode(ps[i], ns[j]) && os[i].attrs == ps[i].attrs {
      AlikeKids(os[i], ps[i]);
    }
    if Keyed(os, ns) {
      assert ns[j] in ns;
      LookupAlike(os, ps, ns[j].attrs[KEY_ATTR]);
    }
  }

  lemma {:induction false} KeysOkAlike(o: Tree, p: Tree, n: Tree)
    requires Copy(o) == Copy(p) && KeysOk(o, n)
    ensures KeysOk(p, n)
    decreases n, 1
  {
    AlikeKids(o, p);
    if o.kind.Element? && PRESERVE_ATTR !in n.attrs {
      KeysOkKidsAlike(o.kids, p.kids, n.kids);
    }
  }

  lemma {:induction false} KeysOkKidsAlike(os: seq<Tree>, ps: seq<Tree>, ns: seq<Tree>)
    requires Alike(os, ps) && KeysOkKids(os, ns)
    ensures KeysOkKids(ps, ns)
    decreases ns, 0
  {
    if Keyed(ps, ns) {
      MatchAlike(os, ps, ns, 0);
    }
    forall j | 0 <= j < |ns| && Match(ps, ns, j).Some? ensures KeysOk(ps[Match(ps, ns, j).value], ns[j]) {
      MatchAlike(os, ps, ns, j);
      var i := Match(ps, ns, j).value;
      KeysOkAlike(os[i], ps[i], ns[j]);
    }
  }

  /** A patch treats trees that are alike alike. */
  lemma {:induction false} MorphAlike(o: Tree, p: Tree, n: Tree)
    requires Copy(o) == Copy(p)
    ensures Copy(Morph(o, n)) == Copy(Morph(p, n))
    decreases n, 1
  {
    AlikeKids(o, p);
    if o.kind.Element? && PRESERVE_ATTR !in n.attrs {
      MorphKidsAlike(o.kids, p.kids, n.kids);
    }
    CopiedKids(Morph(o, n), Morph(p, n));
  }

  lemma {:induction false} MorphKidsAlike(os: seq<Tree>, ps: seq<Tree>, ns: seq<Tree>)
    requires Alike(os, ps)
    ensures Alike(MorphKids(os, ns), MorphKids(ps, ns))
    decreases ns, 0
  {
    forall j | 0 <= j < |ns| ensures Copy(MorphKids(os, ns)[j]) == Copy(MorphKids(ps, ns)[j]) {
      MatchAlike(os, ps, ns, j);
      if Match(os, ns, j).Some? {
        var i := Match(os, ns, j).value;
        MorphAlike(os[i], ps[i], ns[j]);
      }
    }
  }

  lemma {:induction false} UnchangedAlike(o: Tree, p: Tree, n: Tree)
    requires Copy(o) == Copy(p) && KeysOk(o, n) && Morph(o, n) == o
    ensures Morph(p, n) == p
    decreases n, 1
  {
    AlikeKids(o, p);
    if o.kind.Element? && PRESERVE_ATTR !in n.attrs {
      UnchangedKidsAlike(o.kids, p.kids, n.kids);
    }
  }

  lemma {:induction false} UnchangedKidsAlike(os: seq<Tree>, ps: seq<Tree>, ns: seq<Tree>)
    requires Alike(os, ps) && KeysOkKids(os, ns) && MorphKids(os, ns) == os
    ensures MorphKids(ps, ns) == ps
    decreases ns, 0
  {
    forall j | 0 <= j < |ns| ensures MorphKids(ps, ns)[j] == ps[j] {
      UnchangedMatches(os, ns, j);
      MatchAlike(os, ps, ns, j);
      UnchangedAlike(os[j], ps[j], ns[j]);
    }
  }

  lemma {:induction false} KeptAlike(was: Shape, o: Tree, p: Tree, n: Tree, now: Shape)
    requires Copy(o) == Copy(p) && Kept(was, o, n, now)
    ensures Kept(was, p, n, now)
    decreases n, 1
  {
    AlikeKids(o, p);
    if o.kind.Element? && PRESERVE_ATTR !in n.attrs {
      KeptKidsAlike(was.kids, o.kids, p.kids, n.kids, now.kids);
    }
  }

  lemma {:induction false} KeptKidsAlike(was: seq<Shape>, os: seq<Tree>, ps: seq<Tree>, ns: seq<Tree>, now: seq<Shape>)
    requires Alike(os, ps) && KeptKids(was, os, ns, now)
    ensures KeptKids(was, ps, ns, now)
    decreases ns, 0
  {
    forall j | 0 <= j < |ns| && Match(ps, ns, j).Some?
      ensures Kept(was[Match(ps, ns, j).value], ps[Match(ps, ns, j).value], ns[j], now[j])
    {
      MatchAlike(os, ps, ns, j);
      var i := Match(ps, ns, j).value;
      KeptAlike(was[i], os[i], ps[i], ns[j], now[j]);
    }
  }

  // ----- two consequences -----

  /** The keyed path never compares tags: a row whose tag changed under an unchanged key keeps the old tag. */
  lemma KeyedPathKeepsOldTag(k: string)
    ensures
      var o := Tree(Element, "LI", "", map[KEY_ATTR := k], [], null);
      var n := Tree(Element, "DIV", "", map[KEY_ATTR := k], [], null);
      MorphKids([o], [n]) == [o] && !AgreesKids(MorphKids([o], [n]), [n])
  {
    var o := Tree(Element, "LI", "", map[KEY_ATTR := k], [], null);
    var n := Tree(Element, "DIV", "", map[KEY_ATTR := k], [], null);
    assert LookupKey([o], k) == Some(0);
    assert MorphKids([], []) == [];
    assert Morph(o, n) == o;
    assert MorphKids([o], [n]) == [o];
    assert !Agrees(o, n);
  }

  /** Positional matching ties a preserved subtree to its index: a panel inserted before the last one
      makes the last one a copy of its template, and with it whatever data-preserve was to keep. */
  lemma ShiftedPanelIsRebuilt(before: seq<Tree>, last: Tree, before': seq<Tree>, last': Tree)
    requires |before'| > |before| && !IsKeyed(before' + [last'])
    ensures MorphKids(before + [last], before' + [last'])[|before'|] == Copy(last')
  {
    var os, ns := before + [last], before' + [last'];
    assert Match(os, ns, |before'|) == None;
  }
}
