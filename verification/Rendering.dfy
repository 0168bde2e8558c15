/** `createElm`: rendering a virtual node from scratch. */
module Rendering {
  import opened Common
  import opened VNodes
  import opened Dom
  import opened Mounting

  /** Whether `insert(parent, elm, ref)` puts the element anywhere. */
  ghost predicate Inserts(n: Store, parent: Option<Id>, ref: Option<Id>) {
    parent.Some? && (ref.Some? ==> ref.value in n && n[ref.value].parent == parent)
  }

  /** `insert(parent, elm, ref)`. */
  method Insert(doc: Document, parent: Option<Id>, elm: Id, ref: Option<Id>)
    requires doc.Valid() && elm in doc.nodes && doc.nodes[elm].parent == None
    requires parent.Some? ==> parent.value in doc.nodes && parent.value != elm
    requires ref.Some? ==> ref.value in doc.nodes
    modifies doc
    ensures doc.Valid() && doc.nodes.Keys == old(doc.nodes).Keys
    ensures Inserts(old(doc.nodes), parent, ref) ==>
              && (ref.Some? ==> ref.value in old(doc.nodes)[parent.value].children)
              && doc.nodes == Attached(old(doc.nodes), parent.value, elm, ref)
    ensures !Inserts(old(doc.nodes), parent, ref) ==> doc.nodes == old(doc.nodes)
  {
    if parent.Some? {
      if ref.Some? {
        if doc.nodes[ref.value].parent == parent {
          assert LinkedAt(doc.nodes, ref.value);
          doc.InsertBefore(parent.value, elm, ref);
        }
      } else {
        doc.InsertBefore(parent.value, elm, None);
      }
    }
  }

  /** `createElm` up to its `insert`: the element of v with everything below it. */
  method Render(doc: Document, v: VNode) returns (m: Mounted)
    requires doc.Valid() && WellFormed(v)
    modifies doc
    ensures doc.Valid()
    ensures m.vnode == v && Shows(doc.nodes, m) && Foot(m) !! old(doc.nodes).Keys
    ensures doc.nodes[m.elm].parent == None && Whole(m)
    ensures Kept(old(doc.nodes), doc.nodes, {})
    decreases v, 1
  {
    hide Grove, Linked, AllShow;
    var elm;
    var kids := [];
    if v.tag.Some? {
      elm := doc.Create(ElementNode(v.tag.value), "");
      kids := CreateChildren(doc, elm, v);
      if v.data.Some? {
        ghost var n1 := doc.nodes;
        doc.SetData(elm, v.data);
        GroveFrame(n1, doc.nodes, elm, kids);
      }
    } else if v.isComment {
      elm := doc.Create(CommentNode, v.text.value);
      EmptyGrove(doc.nodes, elm);
    } else {
      elm := doc.Create(TextNode, v.text.value);
      EmptyGrove(doc.nodes, elm);
    }
    m := Mounted(v, elm, kids);
    FootNode(m);
  }

  /** `createChildren`: the children of v, or its text, into an element that has none. */
  method CreateChildren(doc: Document, elm: Id, v: VNode) returns (kids: seq<Mounted>)
    requires doc.Valid() && WellFormed(v) && v.tag.Some? && elm in doc.nodes && doc.nodes[elm].children == []
    modifies doc
    ensures doc.Valid() && Grove(doc.nodes, elm, kids)
    ensures |kids| == |KidVNodes(v)|
    ensures forall i :: 0 <= i < |kids| ==> kids[i].vnode == KidVNodes(v)[i] && Whole(kids[i])
    ensures Edited(old(doc.nodes), doc.nodes, elm, {}) && FootAll(kids) !! old(doc.nodes).Keys
    decreases v, 0
  {
    hide Grove, Linked, AllShow, Shows;
    kids := [];
    EmptyGrove(doc.nodes, elm);
    if v.children.Children? {
      kids := AddVnodes(doc, elm, None, v.children.list, 0, |v.children.list| - 1, [], []);
      assert [] + kids + [] == kids;
    } else if v.text.Some? {
      var t := doc.Create(TextNode, v.text.value);
      doc.InsertBefore(elm, t, None);
      assert [] + [t] == [t];
      kids := [Mounted(TextVNode(v.text.value), t, [])];
      TextKid(doc.nodes, elm, t, v.text.value);
      FootOne(kids[0]);
    }
  }

  /** `createElm`: the tree of v, all of new nodes, placed before ref among the children of the parent, if there is
      a parent and ref is one of its children. */
  method CreateElm(doc: Document, v: VNode, parent: Option<Id>, ref: Option<Id>) returns (m: Mounted)
    requires doc.Valid() && WellFormed(v)
    requires parent.Some? ==> parent.value in doc.nodes
    requires ref.Some? ==> ref.value in doc.nodes
    modifies doc
    ensures doc.Valid()
    ensures m.vnode == v && Shows(doc.nodes, m) && Foot(m) !! old(doc.nodes).Keys
    ensures Denotes(doc.nodes, m.elm, Build(v)) && Whole(m)
    ensures !Inserts(old(doc.nodes), parent, ref) ==>
              doc.nodes[m.elm].parent == None && Kept(old(doc.nodes), doc.nodes, {})
    ensures Inserts(old(doc.nodes), parent, ref) ==>
              && doc.nodes[m.elm].parent == parent
              && Kept(old(doc.nodes), doc.nodes, {parent.value})
              && (ref.Some? ==> ref.value in old(doc.nodes)[parent.value].children)
              && doc.nodes[parent.value] == old(doc.nodes)[parent.value].(
                   children := PutBefore(old(doc.nodes)[parent.value].children, m.elm, ref))
    decreases v, 2
  {
    hide Grove, Shows, Linked, AllShow, Whole;
    m := Render(doc, v);
    ghost var n1 := doc.nodes;
    ShowsInStore(n1, m);
    assert m.elm in Foot(m);
    Insert(doc, parent, m.elm, ref);
    ShowsFrame(n1, doc.nodes, m);
    DenotesBuilt(doc.nodes, m);
  }

  lemma RefReady(n: Store, p: Id, a: seq<Mounted>, d: seq<Mounted>)
    requires Linked(n) && Grove(n, p, a + d)
    ensures p in n && FootAll(a + d) <= n.Keys
    ensures RefOf(d).Some? ==> RefOf(d).value in n[p].children && RefOf(d).value in n
    ensures Inserts(n, Some(p), RefOf(d))
  {
    GroveIs2(n, p, a, d);
    PutBeforeRef(a, d, 0);
    AllShowInStore(n, a + d);
    assert LinkedAt(n, p);
  }

  /** `createElm(v, p, ref)` when p shows a + d and ref is the start of d. */
  method CreateIn(doc: Document, p: Id, ref: Option<Id>, v: VNode, ghost a: seq<Mounted>, ghost d: seq<Mounted>)
    returns (m: Mounted)
    requires doc.Valid() && WellFormed(v)
    requires Grove(doc.nodes, p, a + d) && ref == RefOf(d)
    modifies doc
    ensures doc.Valid() && Grove(doc.nodes, p, a + [m] + d)
    ensures m.vnode == v && Foot(m) !! old(doc.nodes).Keys && m.elm !in old(doc.nodes) && Whole(m)
    ensures Edited(old(doc.nodes), doc.nodes, p, {})
    ensures FootAll(a + [m] + d) <= FootAll(a + d) + (doc.nodes.Keys - old(doc.nodes).Keys)
    decreases v, 3
  {
    hide Grove, Shows, Linked, AllShow, Whole;
    ghost var n0 := doc.nodes;
    RefReady(n0, p, a, d);
    m := CreateElm(doc, v, Some(p), ref);
    GroveInsert(n0, doc.nodes, p, a, m, d);
    ShowsInStore(doc.nodes, m);
    FootRow(a, m, d);
    FootAllConcat(a, d);
  }

  lemma FootNone()
    ensures FootAll([]) == {}
  {
  }

  lemma FootSnoc(ms: seq<Mounted>, m: Mounted)
    ensures FootAll(ms + [m]) == FootAll(ms) + Foot(m)
  {
    FootAllConcat(ms, [m]);
    FootOne(m);
  }

  /** Renders vnodes[start..end+1] into the child list of p, before ref. */
  method AddVnodes(doc: Document, p: Id, ref: Option<Id>, vnodes: seq<VNode>, start: int, end: int,
                   ghost a: seq<Mounted>, ghost d: seq<Mounted>) returns (ms: seq<Mounted>)
    requires doc.Valid() && Grove(doc.nodes, p, a + d) && ref == RefOf(d)
    requires 0 <= start <= end + 1 <= |vnodes|
    requires forall i :: 0 <= i < |vnodes| ==> WellFormed(vnodes[i])
    modifies doc
    ensures doc.Valid() && Grove(doc.nodes, p, a + ms + d)
    ensures |ms| == end + 1 - start && forall i :: 0 <= i < |ms| ==> ms[i].vnode == vnodes[start + i] && Whole(ms[i])
    ensures Edited(old(doc.nodes), doc.nodes, p, {})
    ensures FootAll(ms) !! old(doc.nodes).Keys
    decreases vnodes, 0
  {
    hide Grove, Shows, Linked, AllShow, FootAll, Foot, Whole;
    ms := [];
    ghost var n0 := doc.nodes;
    ghost var row := a;
    FootNone();
    RefReady(n0, p, a, d);
    var i := start;
    while i <= end
      invariant start <= i <= end + 1
      invariant row == a + ms
      invariant doc.Valid() && Grove(doc.nodes, p, row + d)
      invariant |ms| == i - start && forall k :: 0 <= k < |ms| ==> ms[k].vnode == vnodes[start + k] && Whole(ms[k])
      invariant Edited(n0, doc.nodes, p, {})
      invariant FootAll(ms) !! n0.Keys
    {
      var m := CreateIn(doc, p, ref, vnodes[i], row, d);
      FootSnoc(ms, m);
      row, ms := row + [m], ms + [m];
      i := i + 1;
    }
  }
}
