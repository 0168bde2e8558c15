/** Virtual nodes that are on the document: which nodes they occupy, and what the document shows of them. */
module Mounting {
  import opened Common
  import opened VNodes
  import opened Dom

  // ----- virtual nodes that are on the document

  /** A virtual node together with its `elm`, and its children with theirs. */
  datatype Mounted = Mounted(vnode: VNode, elm: Id, kids: seq<Mounted>)

  ghost function Elms(ms: seq<Mounted>): seq<Id> {
    seq(|ms|, i requires 0 <= i < |ms| => ms[i].elm)
  }

  /** The document nodes that m occupies. */
  ghost function Foot(m: Mounted): set<Id> {
    {m.elm} + set i, x | 0 <= i < |m.kids| && x in Foot(m.kids[i]) :: x
  }

  ghost function FootAll(ms: seq<Mounted>): set<Id> {
    set i, x | 0 <= i < |ms| && x in Foot(ms[i]) :: x
  }

  /** The document node itself is what v asks for. */
  ghost predicate RootShows(d: DomNode, v: VNode) {
    if v.tag.Some? then d.kind == ElementNode(v.tag.value) && d.data == v.data
    else d.kind == (if v.isComment then CommentNode else TextNode) && Some(d.text) == v.text
  }

  /** The subtrees of ms do not overlap, and none contains p. */
  ghost predicate Apart(p: Id, ms: seq<Mounted>) {
    && (forall i :: 0 <= i < |ms| ==> p !in Foot(ms[i]))
    && (forall i, j :: 0 <= i < |ms| && 0 <= j < |ms| && i != j ==> Foot(ms[i]) !! Foot(ms[j]))
  }

  /** The children of m are those of its virtual node; an empty text of an element may have no node. */
  ghost predicate KidsFit(m: Mounted) {
    || (CarriesEmpty(m.vnode) && m.kids == [])
    || (|m.kids| == |KidVNodes(m.vnode)| && forall i :: 0 <= i < |m.kids| ==> m.kids[i].vnode == KidVNodes(m.vnode)[i])
  }

  /** The document subtree under m.elm is exactly m. */
  ghost predicate Shows(n: Store, m: Mounted)
    decreases m, 1
  {
    && m.elm in n
    && RootShows(n[m.elm], m.vnode)
    && KidsFit(m)
    && Grove(n, m.elm, m.kids)
  }

  /** The children of p are exactly the mounted nodes ms, in order. */
  ghost predicate Grove(n: Store, p: Id, ms: seq<Mounted>)
    decreases ms, 1
  {
    && p in n
    && n[p].children == Elms(ms)
    && Apart(p, ms)
    && AllShow(n, ms)
  }

  ghost predicate AllShow(n: Store, ms: seq<Mounted>)
    decreases ms, 0
  {
    forall i :: 0 <= i < |ms| ==> Shows(n, ms[i])
  }

  /** Two nodes that differ at most in their parent. */
  ghost predicate SameContent(a: DomNode, b: DomNode) {
    a.(parent := None) == b.(parent := None)
  }

  ghost predicate Agree(n: Store, n': Store, s: set<Id>) {
    forall x :: x in s && x in n ==> x in n' && SameContent(n[x], n'[x])
  }

  lemma {:induction false} ShowsFrame(n: Store, n': Store, m: Mounted)
    requires Shows(n, m) && Agree(n, n', Foot(m))
    ensures Shows(n', m)
    decreases m
  {
    assert m.elm in Foot(m);
    assert AllShow(n, m.kids);
    forall i | 0 <= i < |m.kids| ensures Shows(n', m.kids[i]) {
      assert Foot(m.kids[i]) <= Foot(m);
      ShowsFrame(n, n', m.kids[i]);
    }
  }

  lemma {:induction false} ShowsInStore(n: Store, m: Mounted)
    requires Shows(n, m)
    ensures Foot(m) <= n.Keys
    decreases m
  {
    assert AllShow(n, m.kids);
    forall i | 0 <= i < |m.kids| ensures Foot(m.kids[i]) <= n.Keys {
      ShowsInStore(n, m.kids[i]);
    }
  }

  // ----- reading the document back

  /** The document subtree under id is t. */
  ghost predicate Denotes(n: Store, id: Id, t: Tree)
    decreases t
  {
    && id in n
    && match t
       case Text(s) => n[id].kind == TextNode && n[id].text == s && n[id].children == []
       case Comment(s) => n[id].kind == CommentNode && n[id].text == s && n[id].children == []
       case Element(tag, data, kids) =>
         && n[id].kind == ElementNode(tag)
         && n[id].data == data
         && |n[id].children| == |kids|
         && forall i :: 0 <= i < |kids| ==> Denotes(n, n[id].children[i], kids[i])
  }

  /** A document node denotes at most one tree. */
  lemma {:induction false} DenotesUnique(n: Store, id: Id, t: Tree, t': Tree)
    requires Denotes(n, id, t) && Denotes(n, id, t')
    ensures t == t'
    decreases t
  {
    if t.Element? {
      forall i | 0 <= i < |t.kids| ensures t.kids[i] == t'.kids[i] {
        DenotesUnique(n, n[id].children[i], t.kids[i], t'.kids[i]);
      }
      assert t.kids == t'.kids;
    }
  }

  function TextOf(v: VNode): string {
    if v.text.Some? then v.text.value else ""
  }

  /** The tree that m shows. */
  ghost function Seen(m: Mounted): Tree {
    if m.vnode.tag.Some? then
      Element(m.vnode.tag.value, m.vnode.data, seq(|m.kids|, i requires 0 <= i < |m.kids| => Seen(m.kids[i])))
    else if m.vnode.isComment then Comment(TextOf(m.vnode))
    else Text(TextOf(m.vnode))
  }

  /** A mounted virtual node reads back as the tree it shows. */
  lemma {:induction false} ShowsDenotes(n: Store, m: Mounted)
    requires Shows(n, m) && WellFormed(m.vnode)
    ensures Denotes(n, m.elm, Seen(m))
    decreases m
  {
    assert AllShow(n, m.kids);
    assert |n[m.elm].children| == |m.kids|;
    if m.vnode.tag.Some? {
      forall i | 0 <= i < |m.kids| ensures Denotes(n, n[m.elm].children[i], Seen(m).kids[i]) {
        ShowsDenotes(n, m.kids[i]);
      }
    }
  }

  /** No element of m that carries an empty text lacks its text node. */
  ghost predicate Whole(m: Mounted) {
    && (CarriesEmpty(m.vnode) ==> m.kids != [])
    && forall i :: 0 <= i < |m.kids| ==> Whole(m.kids[i])
  }

  /** What m shows is what building its virtual node from scratch yields, exactly when no empty text was lost. */
  lemma {:induction false} SeenIsBuilt(n: Store, m: Mounted)
    requires Shows(n, m) && WellFormed(m.vnode)
    ensures Seen(m) == Build(m.vnode) <==> Whole(m)
    decreases m
  {
    assert AllShow(n, m.kids);
    if m.vnode.tag.None? {
      assert m.kids == [];
    } else if CarriesEmpty(m.vnode) {
      assert |Build(m.vnode).kids| == 1;
      if m.kids != [] {
        SeenIsBuilt(n, m.kids[0]);
        assert m.kids[0].kids == [] && Whole(m.kids[0]);
        assert Seen(m).kids == [Text("")];
      }
    } else {
      forall i | 0 <= i < |m.kids| ensures Seen(m.kids[i]) == Build(m.kids[i].vnode) <==> Whole(m.kids[i]) {
        SeenIsBuilt(n, m.kids[i]);
      }
      assert |Build(m.vnode).kids| == |m.kids|;
      assert forall i :: 0 <= i < |m.kids| ==> Build(m.vnode).kids[i] == Build(m.kids[i].vnode);
      if forall i :: 0 <= i < |m.kids| ==> Whole(m.kids[i]) {
        assert Seen(m).kids == Build(m.vnode).kids;
      } else {
        var i :| 0 <= i < |m.kids| && !Whole(m.kids[i]);
        assert Seen(m).kids[i] != Build(m.vnode).kids[i];
      }
    }
  }

  /** The document holds the tree that building the virtual node of m yields, exactly when no empty text was lost. */
  lemma DenotesBuilt(n: Store, m: Mounted)
    requires Shows(n, m) && WellFormed(m.vnode)
    ensures Denotes(n, m.elm, Seen(m))
    ensures Denotes(n, m.elm, Build(m.vnode)) <==> Whole(m)
  {
    ShowsDenotes(n, m);
    SeenIsBuilt(n, m);
    if Denotes(n, m.elm, Build(m.vnode)) {
      DenotesUnique(n, m.elm, Seen(m), Build(m.vnode));
    }
  }

  /** Where no element carries an empty text, none can be lost. */
  lemma {:induction false} NothingToLose(n: Store, m: Mounted)
    requires Shows(n, m) && WellFormed(m.vnode) && NoEmptyText(m.vnode)
    ensures Whole(m)
    decreases m
  {
    assert AllShow(n, m.kids);
    forall i | 0 <= i < |m.kids| ensures Whole(m.kids[i]) {
      NothingToLose(n, m.kids[i]);
    }
  }

  /** The first of ms that has the element e. */
  ghost function Bearer(ms: seq<Mounted>, e: Id): Option<Mounted> {
    if ms == [] then None else if ms[0].elm == e then Some(ms[0]) else Bearer(ms[1..], e)
  }

  /** Whether an element that carries an empty text has the node for it, after what was mounted as o, if anything,
      was updated to r: it has if it was created, or if the old text was empty too and had its node. */
  ghost predicate KeepsText(o: Option<Mounted>, r: Mounted) {
    CarriesEmpty(r.vnode) ==> (r.kids != [] <==> o.None? || (o.value.vnode.text == Some("") && o.value.kids != []))
  }

  ghost predicate UniqueOldKeys(old0: seq<Mounted>) {
    forall i, k :: 0 <= i < k < |old0| && old0[i].vnode.key.Some? ==> old0[i].vnode.key != old0[k].vnode.key
  }

  /** A child that has the element of an old child is `sameVnode` with it, and every keyed pair keeps its element. */
  ghost predicate KeepsElements(olds: seq<Mounted>, kids: seq<Mounted>) {
    && (forall j :: 0 <= j < |kids| ==>
          Bearer(olds, kids[j].elm).Some? ==> SameVnode(Bearer(olds, kids[j].elm).value.vnode, kids[j].vnode))
    && (UniqueOldKeys(olds) ==>
          forall i, j :: 0 <= i < |olds| && 0 <= j < |kids| && KeyedPair(olds[i].vnode, kids[j].vnode) ==>
            Bearer(olds, kids[j].elm) == Some(olds[i]))
  }

  /** As many elements as possible are reused: no old child is left over that is `sameVnode` with a created one, unless
      they have a key that the old children do not bear uniquely. */
  ghost predicate ReusesAll(olds: seq<Mounted>, kids: seq<Mounted>) {
    forall i, j ::
      0 <= i < |olds| && 0 <= j < |kids| && olds[i].elm !in Elms(kids) && Bearer(olds, kids[j].elm).None? &&
      (kids[j].vnode.key.None? || UniqueOldKeys(olds)) ==>
        !SameVnode(olds[i].vnode, kids[j].vnode)
  }

  ghost function VNodesOf(ms: seq<Mounted>): seq<VNode> {
    seq(|ms|, i requires 0 <= i < |ms| => ms[i].vnode)
  }

  /** How many nodes at the start of both lists are the same. */
  ghost function Head(a: seq<VNode>, b: seq<VNode>): (c: nat)
    ensures c <= |a| && c <= |b|
  {
    if a != [] && b != [] && SameVnode(a[0], b[0]) then 1 + Head(a[1..], b[1..]) else 0
  }

  /** How many nodes at the end of both lists are the same. */
  ghost function Tail(a: seq<VNode>, b: seq<VNode>): (d: nat)
    ensures d <= |a| && d <= |b|
  {
    if a != [] && b != [] && SameVnode(a[|a| - 1], b[|b| - 1]) then 1 + Tail(a[..|a| - 1], b[..|b| - 1]) else 0
  }

  lemma {:induction false} HeadIs(a: seq<VNode>, b: seq<VNode>)
    ensures var c := Head(a, b);
            && (forall j :: 0 <= j < c ==> SameVnode(a[j], b[j]))
            && (c < |a| && c < |b| ==> !SameVnode(a[c], b[c]))
  {
    hide SameVnode;
    if a != [] && b != [] && SameVnode(a[0], b[0]) {
      HeadIs(a[1..], b[1..]);
      forall j | 0 <= j < Head(a, b) ensures SameVnode(a[j], b[j]) {
        assert j > 0 ==> SameVnode(a[1..][j - 1], b[1..][j - 1]);
      }
    }
  }

  lemma {:induction false} TailIs(a: seq<VNode>, b: seq<VNode>)
    ensures var d := Tail(a, b);
            && (forall j :: |b| - d <= j < |b| ==> SameVnode(a[j + |a| - |b|], b[j]))
            && (d < |a| && d < |b| ==> !SameVnode(a[|a| - 1 - d], b[|b| - 1 - d]))
  {
    hide SameVnode;
    if a != [] && b != [] && SameVnode(a[|a| - 1], b[|b| - 1]) {
      TailIs(a[..|a| - 1], b[..|b| - 1]);
    }
  }

  /** What is the same at the ends of two lists: c nodes at the start, d of the rest at the end; and of what remains,
      whether the first old node is the same as the last new one, and the last old as the first new. */
  datatype Plan = Plan(m: nat, c: nat, d: nat, right: bool, left: bool)

  ghost function PlanOf(a: seq<VNode>, b: seq<VNode>): (p: Plan)
    ensures p.c + p.d <= |a| == p.m && p.c + p.d <= |b| && p.c == Head(a, b)
    ensures p.right || p.left ==> p.c + p.d < |a| && p.c + p.d < |b|
  {
    var c := Head(a, b);
    var d := Tail(a[c..], b[c..]);
    var more := c + d < |a| && c + d < |b|;
    Plan(|a|, c, d, more && SameVnode(a[c], b[|b| - 1 - d]), more && SameVnode(a[|a| - 1 - d], b[c]))
  }

  ghost predicate EndsStay(olds: seq<Mounted>, kids: seq<Mounted>, p: Plan)
    requires p.c + p.d <= |olds| && p.c + p.d <= |kids|
    requires p.right || p.left ==> p.c + p.d < |olds| && p.c + p.d < |kids|
  {
    && (forall j :: 0 <= j < p.c ==> kids[j].elm == olds[j].elm)
    && (forall j :: |kids| - p.d <= j < |kids| ==> kids[j].elm == olds[j + |olds| - |kids|].elm)
    && (p.right ==> kids[|kids| - 1 - p.d].elm == olds[p.c].elm)
    && (!p.right && p.left ==> kids[p.c].elm == olds[|olds| - 1 - p.d].elm)
  }

  /** As long as the lists are the same from the start, elements stay where they are; and so do those of the rest, as
      long as it is the same from the end. Of what remains, the first old element goes to the last new node if that is
      the same, or else the last old one to the first new node. */
  ghost predicate KeepsEnds(olds: seq<Mounted>, kids: seq<Mounted>) {
    EndsStay(olds, kids, PlanOf(VNodesOf(olds), VNodesOf(kids)))
  }

  /** From one child list to another. */
  ghost predicate BothLists(o: VNode, v: VNode) {
    o.children.Children? && v.children.Children?
  }

  /** KeepsElements, ReusesAll, KeepsEnds and KeepsText for r and everything in it, the old node of a child being the
      one whose element it has. */
  ghost predicate Follows(o: Option<Mounted>, r: Mounted)
    decreases r
  {
    && KeepsText(o, r)
    && (o.Some? ==> KeepsElements(o.value.kids, r.kids))
    && (o.Some? && BothLists(o.value.vnode, r.vnode) ==>
          ReusesAll(o.value.kids, r.kids) && KeepsEnds(o.value.kids, r.kids))
    && forall j :: 0 <= j < |r.kids| ==>
         Follows(if o.None? then None else Bearer(o.value.kids, r.kids[j].elm), r.kids[j])
  }

  lemma {:induction false} BearerAt(ms: seq<Mounted>, i: nat)
    requires i < |ms| && Distinct(Elms(ms))
    ensures Bearer(ms, ms[i].elm) == Some(ms[i])
  {
    if i == 0 {
    } else {
      assert Elms(ms)[0] != Elms(ms)[i];
      assert Elms(ms[1..]) == Elms(ms)[1..];
      BearerAt(ms[1..], i - 1);
    }
  }

  lemma {:induction false} BearerNone(ms: seq<Mounted>, e: Id)
    requires e !in Elms(ms)
    ensures Bearer(ms, e) == None
  {
    if ms == [] {
    } else {
      assert Elms(ms)[0] != e && Elms(ms[1..]) == Elms(ms)[1..];
      BearerNone(ms[1..], e);
    }
  }

  /** What was created is whole. */
  lemma {:induction false} FollowsNone(r: Mounted)
    ensures Follows(None, r) <==> Whole(r)
    decreases r
  {
    forall i | 0 <= i < |r.kids| ensures Follows(None, r.kids[i]) <==> Whole(r.kids[i]) {
      FollowsNone(r.kids[i]);
    }
  }

  lemma GroveElms(n: Store, p: Id, ms: seq<Mounted>)
    requires Grove(n, p, ms)
    ensures Distinct(Elms(ms)) && forall i :: 0 <= i < |ms| ==> ms[i].elm in n
  {
    assert AllShow(n, ms);
    forall i, j | 0 <= i < j < |ms| ensures Elms(ms)[i] != Elms(ms)[j] {
      assert ms[i].elm in Foot(ms[i]) && ms[j].elm in Foot(ms[j]);
    }
  }

  lemma KeptEnds(ms: seq<Mounted>)
    ensures KeepsEnds(ms, ms)
  {
    HeadIs(VNodesOf(ms), VNodesOf(ms));
  }

  /** Children left alone keep their elements. */
  lemma KeptElements(ms: seq<Mounted>)
    requires Distinct(Elms(ms))
    ensures KeepsElements(ms, ms) && ReusesAll(ms, ms) && KeepsEnds(ms, ms)
  {
    hide KeepsEnds;
    forall j | 0 <= j < |ms| ensures Bearer(ms, ms[j].elm) == Some(ms[j]) {
      BearerAt(ms, j);
    }
    KeptEnds(ms);
  }

  /** What is left alone loses nothing. */
  lemma {:induction false} FollowsSelf(n: Store, m: Mounted)
    requires Shows(n, m)
    ensures Follows(Some(m), m)
    decreases m
  {
    hide KeepsElements, ReusesAll, KeepsEnds;
    GroveElms(n, m.elm, m.kids);
    KeptElements(m.kids);
    assert AllShow(n, m.kids);
    forall i | 0 <= i < |m.kids| ensures Follows(Bearer(m.kids, m.kids[i].elm), m.kids[i]) {
      BearerAt(m.kids, i);
      FollowsSelf(n, m.kids[i]);
    }
  }

  // ----- keyed child lists

  /** Every element that is a child has a key. */
  ghost predicate Keyed(v: VNode) {
    v.children.Children? ==>
      forall i :: 0 <= i < |v.children.list| ==>
        (v.children.list[i].tag.Some? ==> v.children.list[i].key.Some?) && Keyed(v.children.list[i])
  }

  /** The first of ms that makes a keyed pair with v. */
  ghost function Partner(ms: seq<Mounted>, v: VNode): (r: Option<Mounted>)
    ensures r.Some? ==> exists i :: 0 <= i < |ms| && r == Some(ms[i]) && KeyedPair(ms[i].vnode, v)
    ensures r.None? ==> forall i :: 0 <= i < |ms| ==> !KeyedPair(ms[i].vnode, v)
  {
    if ms == [] then None
    else if KeyedPair(ms[0].vnode, v) then Some(ms[0])
    else
      var r := Partner(ms[1..], v);
      assert forall i :: 0 < i < |ms| ==> ms[i] == ms[1..][i - 1];
      r
  }

  /** No element of v that carries an empty text would replace one with another text, or one without its node: each is
      compared with the old node that makes a keyed pair with it. */
  ghost predicate Lossless(o: Option<Mounted>, v: VNode)
    decreases v
  {
    && (CarriesEmpty(v) ==> o.None? || (o.value.vnode.text == Some("") && o.value.kids != []))
    && (v.children.Children? ==>
          forall i :: 0 <= i < |v.children.list| ==>
            Lossless(if o.None? then None else Partner(o.value.kids, v.children.list[i]), v.children.list[i]))
  }

  lemma {:induction false} BearerIn(ms: seq<Mounted>, e: Id)
    requires Bearer(ms, e).Some?
    ensures exists i :: 0 <= i < |ms| && Bearer(ms, e) == Some(ms[i]) && ms[i].elm == e
  {
    if ms == [] {
    } else if ms[0].elm != e {
      BearerIn(ms[1..], e);
      var i :| 0 <= i < |ms[1..]| && Bearer(ms, e) == Some(ms[1..][i]) && ms[1..][i].elm == e;
      assert ms[i + 1] == ms[1..][i];
    }
  }

  /** The old node of a keyed child is its keyed partner. */
  lemma PartnerIsBearer(olds: seq<Mounted>, kids: seq<Mounted>, j: nat)
    requires KeepsElements(olds, kids) && UniqueOldKeys(olds) && j < |kids| && kids[j].vnode.key.Some?
    ensures Partner(olds, kids[j].vnode) == Bearer(olds, kids[j].elm)
  {
    hide SameInputType;
    var q, b := Partner(olds, kids[j].vnode), Bearer(olds, kids[j].elm);
    if b.Some? {
      BearerIn(olds, kids[j].elm);
      assert KeyedPair(b.value.vnode, kids[j].vnode);
    }
    if q.Some? {
      var i :| 0 <= i < |olds| && q == Some(olds[i]) && KeyedPair(olds[i].vnode, kids[j].vnode);
    }
  }

  /** The old node that child j of r makes a keyed pair with. */
  ghost function OldOf(o: Option<Mounted>, r: Mounted, j: nat): Option<Mounted>
    requires j < |r.kids|
  {
    if o.None? then None else Partner(o.value.kids, r.kids[j].vnode)
  }

  lemma KidFacts(n0: Store, o: Option<Mounted>, n: Store, r: Mounted, j: nat)
    requires o.Some? ==> Shows(n0, o.value) && WellFormed(o.value.vnode) && Patchable(o.value.vnode)
    requires Shows(n, r) && WellFormed(r.vnode) && Keyed(r.vnode) && Follows(o, r) && j < |r.kids|
    ensures Shows(n, r.kids[j]) && WellFormed(r.kids[j].vnode) && Keyed(r.kids[j].vnode)
    ensures r.kids[j].vnode.tag.None? ==> Whole(r.kids[j]) && Lossless(OldOf(o, r, j), r.kids[j].vnode)
    ensures r.kids[j].vnode.tag.Some? ==> Follows(OldOf(o, r, j), r.kids[j])
    ensures OldOf(o, r, j).Some? ==>
              var k := OldOf(o, r, j).value; Shows(n0, k) && WellFormed(k.vnode) && Patchable(k.vnode)
  {
    assert AllShow(n, r.kids);
    if o.Some? {
      assert AllShow(n0, o.value.kids);
      if r.kids[j].vnode.tag.Some? {
        PartnerIsBearer(o.value.kids, r.kids, j);
      }
    }
  }

  lemma WholeFromKids(n: Store, o: Option<Mounted>, r: Mounted)
    requires Shows(n, r) && WellFormed(r.vnode) && Follows(o, r)
    requires forall j :: 0 <= j < |r.kids| ==> (Whole(r.kids[j]) <==> Lossless(OldOf(o, r, j), r.kids[j].vnode))
    ensures Whole(r) <==> Lossless(o, r.vnode)
  {
  }

  /** Whether an update lost an empty text, said of the old and the new node alone. */
  lemma {:induction false} WholeExactly(n0: Store, o: Option<Mounted>, n: Store, r: Mounted)
    requires o.Some? ==> Shows(n0, o.value) && WellFormed(o.value.vnode) && Patchable(o.value.vnode)
    requires Shows(n, r) && WellFormed(r.vnode) && Keyed(r.vnode) && Follows(o, r)
    ensures Whole(r) <==> Lossless(o, r.vnode)
    decreases r
  {
    hide Partner, Bearer, KeepsElements, ReusesAll, KeepsEnds, SameVnode, Whole, Lossless, Patchable, WellFormed;
    forall j | 0 <= j < |r.kids| ensures Whole(r.kids[j]) <==> Lossless(OldOf(o, r, j), r.kids[j].vnode) {
      KidFacts(n0, o, n, r, j);
      if r.kids[j].vnode.tag.Some? {
        WholeExactly(n0, OldOf(o, r, j), n, r.kids[j]);
      }
    }
    WholeFromKids(n, o, r);
  }

  // ----- editing one child list

  ghost function RefOf(d: seq<Mounted>): Option<Id> {
    if d == [] then None else Some(d[0].elm)
  }

  lemma FootAllConcat(a: seq<Mounted>, b: seq<Mounted>)
    ensures FootAll(a + b) == FootAll(a) + FootAll(b)
  {
    var s := a + b;
    assert forall i :: 0 <= i < |a| ==> s[i] == a[i];
    assert forall i :: 0 <= i < |b| ==> s[|a| + i] == b[i];
  }

  lemma FootOne(m: Mounted)
    ensures FootAll([m]) == Foot(m) && m.elm in Foot(m)
  {
    assert [m][0] == m;
    forall x | x in Foot(m) ensures x in FootAll([m]) {
      assert x in Foot([m][0]);
    }
  }

  lemma ApartSplit(p: Id, a: seq<Mounted>, b: seq<Mounted>)
    requires Apart(p, a + b)
    ensures Apart(p, a) && Apart(p, b) && FootAll(a) !! FootAll(b)
  {
    var s := a + b;
    assert forall i :: 0 <= i < |a| ==> s[i] == a[i];
    assert forall i :: 0 <= i < |b| ==> s[|a| + i] == b[i];
    assert Apart(p, b) by {
      forall i, j | 0 <= i < |b| && 0 <= j < |b| && i != j ensures Foot(b[i]) !! Foot(b[j]) {
        assert Foot(s[|a| + i]) !! Foot(s[|a| + j]);
      }
    }
    forall x | x in FootAll(a) ensures x !in FootAll(b) {
      var i :| 0 <= i < |a| && x in Foot(a[i]);
      forall j | 0 <= j < |b| ensures x !in Foot(b[j]) {
        assert Foot(s[i]) !! Foot(s[|a| + j]);
      }
    }
  }

  lemma ApartJoin(p: Id, a: seq<Mounted>, b: seq<Mounted>)
    requires Apart(p, a) && Apart(p, b) && FootAll(a) !! FootAll(b)
    ensures Apart(p, a + b)
  {
    var s := a + b;
    forall i, j | 0 <= i < |s| && 0 <= j < |s| && i != j ensures Foot(s[i]) !! Foot(s[j]) {
      assert i < |a| ==> Foot(s[i]) <= FootAll(a);
      assert i >= |a| ==> Foot(s[i]) <= FootAll(b);
      assert j < |a| ==> Foot(s[j]) <= FootAll(a);
      assert j >= |a| ==> Foot(s[j]) <= FootAll(b);
    }
  }

  lemma ApartOut(p: Id, ms: seq<Mounted>)
    requires Apart(p, ms)
    ensures p !in FootAll(ms)
  {
  }

  lemma ElmNotIn(a: seq<Mounted>, m: Mounted)
    requires Foot(m) !! FootAll(a)
    ensures m.elm !in Elms(a)
  {
    forall i | 0 <= i < |a| ensures a[i].elm != m.elm {
      assert a[i].elm in Foot(a[i]);
      assert a[i].elm in FootAll(a);
    }
  }

  /** The child list of p is a followed by b, in pieces. */
  ghost predicate Grove2(n: Store, p: Id, a: seq<Mounted>, b: seq<Mounted>) {
    && p in n && n[p].children == Elms(a) + Elms(b)
    && Apart(p, a) && Apart(p, b) && FootAll(a) !! FootAll(b)
    && AllShow(n, a) && AllShow(n, b)
  }

  /** The child list of p is a, then m, then b, in pieces. */
  ghost predicate Grove3(n: Store, p: Id, a: seq<Mounted>, m: Mounted, b: seq<Mounted>) {
    && p in n && n[p].children == Elms(a) + [m.elm] + Elms(b)
    && Apart(p, a) && Apart(p, b) && p !in Foot(m)
    && FootAll(a) !! FootAll(b) && Foot(m) !! FootAll(a) && Foot(m) !! FootAll(b)
    && AllShow(n, a) && AllShow(n, b) && Shows(n, m)
  }

  lemma GroveIs2(n: Store, p: Id, a: seq<Mounted>, b: seq<Mounted>)
    ensures Grove(n, p, a + b) <==> Grove2(n, p, a, b)
  {
    var s := a + b;
    assert forall i :: 0 <= i < |a| ==> s[i] == a[i];
    assert forall i :: 0 <= i < |b| ==> s[|a| + i] == b[i];
    assert Elms(s) == Elms(a) + Elms(b);
    if Grove(n, p, s) {
      ApartSplit(p, a, b);
    }
    if Grove2(n, p, a, b) {
      ApartJoin(p, a, b);
    }
  }

  lemma GroveIs3(n: Store, p: Id, a: seq<Mounted>, m: Mounted, b: seq<Mounted>)
    ensures Grove(n, p, a + [m] + b) <==> Grove3(n, p, a, m, b)
  {
    GroveIs2(n, p, a + [m], b);
    FootOne(m);
    FootAllConcat(a, [m]);
    assert Elms(a + [m]) == Elms(a) + [m.elm];
    assert AllShow(n, a + [m]) <==> AllShow(n, a) && Shows(n, m) by {
      assert (a + [m])[|a|] == m;
      assert forall i :: 0 <= i < |a| ==> (a + [m])[i] == a[i];
    }
    if Apart(p, a + [m]) {
      ApartSplit(p, a, [m]);
      assert p !in Foot([m][0]);
    }
    if Apart(p, a) && p !in Foot(m) && Foot(m) !! FootAll(a) {
      ApartJoin(p, a, [m]);
    }
  }

  lemma AllShowFrame(n: Store, n': Store, ms: seq<Mounted>)
    requires AllShow(n, ms) && Agree(n, n', FootAll(ms))
    ensures AllShow(n', ms)
  {
    forall i | 0 <= i < |ms| ensures Shows(n', ms[i]) {
      assert Foot(ms[i]) <= FootAll(ms);
      ShowsFrame(n, n', ms[i]);
    }
  }

  lemma AllShowInStore(n: Store, ms: seq<Mounted>)
    requires AllShow(n, ms)
    ensures FootAll(ms) <= n.Keys
  {
    forall i | 0 <= i < |ms| ensures Foot(ms[i]) <= n.Keys {
      ShowsInStore(n, ms[i]);
    }
  }

  /** One child was patched in place. */
  lemma GroveReplace(n: Store, n': Store, p: Id, a: seq<Mounted>, m: Mounted, r: Mounted, b: seq<Mounted>)
    requires Grove(n, p, a + [m] + b)
    requires n.Keys <= n'.Keys && forall x :: x in n && x !in Foot(m) ==> n'[x] == n[x]
    requires Shows(n', r) && r.elm == m.elm && Foot(r) <= Foot(m) + (n'.Keys - n.Keys)
    ensures Grove(n', p, a + [r] + b)
  {
    GroveIs3(n, p, a, m, b);
    AllShowInStore(n, a);
    AllShowInStore(n, b);
    AllShowFrame(n, n', a);
    AllShowFrame(n, n', b);
    GroveIs3(n', p, a, r, b);
  }

  lemma DetachedChild(n: Store, p: Id, a: seq<Id>, x: Id, b: seq<Id>)
    requires Linked(n) && p in n && n[p].children == a + [x] + b && x !in a
    ensures x in n && x != p && n[x].parent == Some(p)
    ensures Detached(n, x) == n[p := n[p].(children := a + b)][x := n[x].(parent := None)]
  {
    assert n[p].children[|a|] == x;
    assert LinkedAt(n, p);
    WithoutMiddle(a, x, b);
  }

  /** One child was taken out. */
  lemma GroveRemove(n: Store, p: Id, a: seq<Mounted>, m: Mounted, b: seq<Mounted>)
    requires Linked(n) && Grove(n, p, a + [m] + b)
    ensures m.elm in n && m.elm != p && n[m.elm].parent == Some(p)
    ensures Detached(n, m.elm) == n[p := n[p].(children := Elms(a) + Elms(b))][m.elm := n[m.elm].(parent := None)]
    ensures Grove(Detached(n, m.elm), p, a + b) && Shows(Detached(n, m.elm), m)
    ensures p !in Foot(m) && Foot(m) !! FootAll(a + b)
  {
    hide Grove, Shows, AllShow, Apart, Elms, Foot, FootAll, Linked;
    GroveIs3(n, p, a, m, b);
    ElmNotIn(a, m);
    ApartOut(p, a);
    ApartOut(p, b);
    FootOne(m);
    DetachedChild(n, p, Elms(a), m.elm, Elms(b));
    FootAllConcat(a, b);
    var n' := Detached(n, m.elm);
    AllShowFrame(n, n', a);
    AllShowFrame(n, n', b);
    ShowsFrame(n, n', m);
    GroveIs2(n', p, a, b);
  }

  lemma FirstElm(d: seq<Mounted>)
    requires d != []
    ensures d == [d[0]] + d[1..] && Elms(d) == [d[0].elm] + Elms(d[1..])
  {
  }

  lemma PutLast(e: seq<Id>, none: seq<Id>, x: Id)
    requires none == []
    ensures PutBefore(e + none, x, None) == e + [x] + none
  {
    assert e + none == e && e + [x] + none == e + [x];
  }

  lemma PutBeforeRef(a: seq<Mounted>, d: seq<Mounted>, x: Id)
    requires FootAll(a) !! FootAll(d)
    ensures RefOf(d).Some? ==> RefOf(d).value in Elms(a) + Elms(d)
    ensures PutBefore(Elms(a) + Elms(d), x, RefOf(d)) == Elms(a) + [x] + Elms(d)
  {
    hide FootAll, Foot, PutBefore;
    if d != [] {
      FirstElm(d);
      FootAllConcat([d[0]], d[1..]);
      FootOne(d[0]);
      ElmNotIn(a, d[0]);
      var e, r := Elms(a), Elms(d[1..]);
      PutBeforeMiddle(e, d[0].elm, r, x);
      assert e + Elms(d) == e + [d[0].elm] + r;
      assert e + [x] + [d[0].elm] + r == e + [x] + Elms(d);
    } else {
      PutLast(Elms(a), Elms(d), x);
    }
  }

  /** One subtree was put in, before the part d of the child list. */
  lemma GroveInsert(n: Store, n': Store, p: Id, a: seq<Mounted>, m: Mounted, d: seq<Mounted>)
    requires Grove(n, p, a + d) && Shows(n', m)
    requires forall x :: x in n && x != p ==> x in n' && SameContent(n[x], n'[x])
    requires RefOf(d).Some? ==> RefOf(d).value in n[p].children
    requires p in n' && n'[p] == n[p].(children := PutBefore(n[p].children, m.elm, RefOf(d)), parent := n'[p].parent)
    requires p !in Foot(m) && Foot(m) !! FootAll(a + d)
    ensures Grove(n', p, a + [m] + d)
  {
    GroveIs2(n, p, a, d);
    FootAllConcat(a, d);
    PutBeforeRef(a, d, m.elm);
    AllShowInStore(n, a);
    AllShowInStore(n, d);
    assert p !in FootAll(a) && p !in FootAll(d);
    AllShowFrame(n, n', a);
    AllShowFrame(n, n', d);
    GroveIs3(n', p, a, m, d);
  }

  // ----- creating

  /** From n to n', nodes were only added, and those outside s did not change. */
  ghost predicate Kept(n: Store, n': Store, s: set<Id>) {
    n.Keys <= n'.Keys && forall x :: x in n && x !in s ==> n'[x] == n[x]
  }

  /** Outside s, only the child list of p changed. */
  ghost predicate Edited(n: Store, n': Store, p: Id, s: set<Id>) {
    p in n && Kept(n, n', s + {p}) && n'[p].(children := []) == n[p].(children := [])
  }

  lemma EmptyGrove(n: Store, p: Id)
    requires p in n && n[p].children == []
    ensures Grove(n, p, []) && Grove(n, p, [] + [])
  {
    assert Elms([]) == [];
    var none: seq<Mounted> := [];
    assert none + none == none;
  }

  lemma TextKid(n: Store, p: Id, t: Id, s: string)
    requires p in n && t in n && p != t && n[p].children == [t]
    requires n[t].kind == TextNode && n[t].text == s && n[t].children == []
    ensures Grove(n, p, [Mounted(TextVNode(s), t, [])])
  {
    var k := Mounted(TextVNode(s), t, []);
    EmptyGrove(n, t);
    assert Shows(n, k);
    assert Foot(k) == {t};
    assert Elms([k]) == [t];
  }

  lemma GroveFrame(n: Store, n': Store, p: Id, ms: seq<Mounted>)
    requires Grove(n, p, ms) && p in n' && n'[p].children == n[p].children
    requires Agree(n, n', FootAll(ms))
    ensures Grove(n', p, ms)
  {
    AllShowFrame(n, n', ms);
  }

  lemma FootNode(m: Mounted)
    ensures Foot(m) == {m.elm} + FootAll(m.kids)
  {
  }

  lemma FootRow(a: seq<Mounted>, m: Mounted, b: seq<Mounted>)
    ensures FootAll(a + [m] + b) == FootAll(a) + Foot(m) + FootAll(b)
    ensures m.elm in Foot(m)
  {
    FootAllConcat(a, [m]);
    FootAllConcat(a + [m], b);
    FootOne(m);
  }

  lemma RowParts(n: Store, p: Id, a: seq<Mounted>, m: Mounted, b: seq<Mounted>)
    requires Grove(n, p, a + [m] + b)
    ensures Shows(n, m) && p !in Foot(m) && m.elm in Foot(m) && m.elm in n
    ensures FootAll(a + [m] + b) == FootAll(a) + Foot(m) + FootAll(b)
  {
    GroveIs3(n, p, a, m, b);
    FootRow(a, m, b);
  }
}
