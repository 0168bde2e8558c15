/** The document the patcher edits: a store of nodes with identity, ordered children and parent links,
    changed only through the node operations of the platform. */
module Dom {
  import opened Common
  import opened VNodes

  type Id = nat

  datatype Kind = ElementNode(tag: string) | TextNode | CommentNode
  datatype DomNode = DomNode(kind: Kind, data: Option<Data>, text: string, children: seq<Id>, parent: Option<Id>)

  type Store = map<Id, DomNode>

  /** The children of p name p as their parent, none repeats, and p is a child of its own parent. */
  ghost predicate LinkedAt(n: Store, p: Id)
    requires p in n
  {
    && Distinct(n[p].children)
    && (forall c :: c in n[p].children ==> c in n && c != p && n[c].parent == Some(p))
    && (n[p].parent.Some? ==> n[p].parent.value in n && p in n[n[p].parent.value].children)
  }

  /** Child lists and parent links agree. */
  ghost predicate Linked(n: Store) {
    forall p :: p in n ==> LinkedAt(n, p)
  }

  /** The list s with x placed before ref, or at the end when ref is null. */
  function PutBefore(s: seq<Id>, x: Id, ref: Option<Id>): seq<Id>
    requires ref.Some? ==> ref.value in s
  {
    match ref
    case None => s + [x]
    case Some(r) => s[..IndexOf(s, r)] + [x] + s[IndexOf(s, r)..]
  }

  /** x taken out of its parent's child list. */
  function Detached(n: Store, x: Id): (r: Store)
    requires x in n && (n[x].parent.Some? ==> n[x].parent.value in n)
    ensures r.Keys == n.Keys
  {
    match n[x].parent
    case None => n
    case Some(p) =>
      var cut := n[p := n[p].(children := Without(n[p].children, x))];
      cut[x := cut[x].(parent := None)]
  }

  /** x placed among the children of p, before ref. */
  function Attached(n: Store, p: Id, x: Id, ref: Option<Id>): (r: Store)
    requires x in n && p in n && x != p && (ref.Some? ==> ref.value in n[p].children)
    ensures r.Keys == n.Keys
  {
    n[p := n[p].(children := PutBefore(n[p].children, x, ref))][x := n[x].(parent := Some(p))]
  }

  lemma PutBeforeMiddle(a: seq<Id>, r: Id, b: seq<Id>, x: Id)
    requires r !in a
    ensures PutBefore(a + [r] + b, x, Some(r)) == a + [x] + [r] + b
  {
    IndexOfUnique(a, r, b);
  }

  lemma InsertDistinct(a: seq<Id>, x: Id, b: seq<Id>)
    requires Distinct(a + b) && x !in a + b
    ensures Distinct(a + [x] + b) && forall y :: y in a + [x] + b <==> y in a + b || y == x
  {
    var s, r := a + b, a + [x] + b;
    forall j, k | 0 <= j < k < |r| ensures r[j] != r[k] {
      var j', k' := if j < |a| then j else j - 1, if k < |a| then k else k - 1;
      assert j != |a| ==> r[j] == s[j'];
      assert k != |a| ==> r[k] == s[k'];
    }
  }

  lemma PutBeforeDistinct(s: seq<Id>, x: Id, ref: Option<Id>)
    requires Distinct(s) && x !in s && (ref.Some? ==> ref.value in s)
    ensures Distinct(PutBefore(s, x, ref))
    ensures forall y :: y in PutBefore(s, x, ref) <==> y in s || y == x
  {
    hide Distinct;
    var i := if ref.Some? then IndexOf(s, ref.value) else |s|;
    assert s == s[..i] + s[i..];
    InsertDistinct(s[..i], x, s[i..]);
    assert PutBefore(s, x, ref) == s[..i] + [x] + s[i..];
  }

  lemma DetachedLinked(n: Store, x: Id)
    requires Linked(n) && x in n
    ensures Linked(Detached(n, x)) && Detached(n, x)[x].parent == None
  {
    assert LinkedAt(n, x);
    if n[x].parent.Some? {
      var p := n[x].parent.value;
      var r := Detached(n, x);
      assert LinkedAt(n, p);
      WithoutDistinct(n[p].children, x);
      forall q | q in r ensures LinkedAt(r, q) {
        assert LinkedAt(n, q);
        assert q != p ==> r[q].children == n[q].children;
        assert q != x ==> r[q].parent == n[q].parent;
      }
    }
  }

  lemma AttachedLinked(n: Store, p: Id, x: Id, ref: Option<Id>)
    requires Linked(n) && x in n && p in n && x != p && n[x].parent == None
    requires ref.Some? ==> ref.value in n[p].children
    ensures Linked(Attached(n, p, x, ref))
  {
    hide PutBefore, Distinct;
    var r := Attached(n, p, x, ref);
    assert LinkedAt(n, p);
    assert x !in n[p].children;
    PutBeforeDistinct(n[p].children, x, ref);
    forall q | q in r ensures LinkedAt(r, q) {
      assert LinkedAt(n, q);
      assert q != p ==> r[q].children == n[q].children;
      assert q != x ==> r[q].parent == n[q].parent;
    }
  }

  /** The children of x cut loose from it. */
  function Emptied(n: Store, x: Id): (r: Store)
    requires x in n
    ensures r.Keys == n.Keys
  {
    map c | c in n :: if c == x then n[c].(children := [])
                      else if c in n[x].children then n[c].(parent := None)
                      else n[c]
  }

  lemma EmptiedLinked(n: Store, x: Id)
    requires Linked(n) && x in n
    ensures Linked(Emptied(n, x))
  {
    var r := Emptied(n, x);
    assert LinkedAt(n, x);
    forall q | q in r ensures LinkedAt(r, q) {
      assert LinkedAt(n, q);
      forall c | c in r[q].children ensures c in r && c != q && r[c].parent == Some(q) {
        assert LinkedAt(n, c);
      }
    }
  }

  lemma SameLinks(n: Store, m: Store)
    requires Linked(n) && m.Keys == n.Keys
    requires forall id :: id in n ==> m[id].children == n[id].children && m[id].parent == n[id].parent
    ensures Linked(m)
  {
    forall q | q in m ensures LinkedAt(m, q) {
      assert LinkedAt(n, q);
    }
  }

  class Document {
    var nodes: Store
    var next: Id

    ghost predicate Valid()
      reads this
    {
      Linked(nodes) && forall id :: id in nodes ==> id < next
    }

    constructor ()
      ensures Valid() && nodes == map[]
    {
      nodes, next := map[], 0;
    }

    method Create(kind: Kind, text: string) returns (id: Id)
      requires Valid()
      modifies this
      ensures Valid()
      ensures id !in old(nodes) && nodes == old(nodes)[id := DomNode(kind, None, text, [], None)]
    {
      id := next;
      ghost var n0 := nodes;
      nodes := nodes[id := DomNode(kind, None, text, [], None)];
      next := next + 1;
      forall q | q in nodes ensures LinkedAt(nodes, q) {
        assert q != id ==> LinkedAt(n0, q);
      }
    }

    method SetData(id: Id, data: Option<Data>)
      requires Valid() && id in nodes
      modifies this
      ensures Valid() && nodes == old(nodes)[id := old(nodes[id]).(data := data)]
    {
      ghost var n0 := nodes;
      nodes := nodes[id := nodes[id].(data := data)];
      SameLinks(n0, nodes);
    }

    method RemoveChild(p: Id, x: Id)
      requires Valid() && x in nodes && nodes[x].parent == Some(p)
      modifies this
      ensures Valid() && nodes == Detached(old(nodes), x)
    {
      DetachedLinked(nodes, x);
      nodes := Detached(nodes, x);
    }

    /** `parent.insertBefore(x, ref)`; with ref null it is `parent.appendChild(x)`.
        A node that already has a parent is moved. */
    method InsertBefore(p: Id, x: Id, ref: Option<Id>)
      requires Valid() && x in nodes && p in nodes && x != p
      requires ref.Some? ==> ref.value in nodes[p].children && ref.value != x
      modifies this
      ensures Valid()
      ensures ref.Some? ==> ref.value in Detached(old(nodes), x)[p].children
      ensures nodes == Attached(Detached(old(nodes), x), p, x, ref)
    {
      DetachedLinked(nodes, x);
      if nodes[x].parent.Some? {
        WithoutDistinct(nodes[nodes[x].parent.value].children, x);
      }
      var cut := Detached(nodes, x);
      AttachedLinked(cut, p, x, ref);
      nodes := Attached(cut, p, x, ref);
    }

    /** `nextSibling`: the child of the same parent right after x. */
    function NextSibling(x: Id): (r: Option<Id>)
      requires Valid() && x in nodes
      reads this
      ensures nodes[x].parent.None? ==> r == None
      ensures nodes[x].parent.Some? ==>
                var s := nodes[nodes[x].parent.value].children;
                && x in s && (r.Some? ==> r.value in s)
                && forall i :: 0 <= i < |s| && s[i] == x ==> r == if i + 1 < |s| then Some(s[i + 1]) else None
    {
      if nodes[x].parent.None? then None
      else
        var s := nodes[nodes[x].parent.value].children;
        var i := IndexOf(s, x);
        if i + 1 < |s| then Some(s[i + 1]) else None
    }

    /** `node.textContent = text`: a text or comment node takes the text; an element loses its children
        and gains one text node, unless the text is empty. */
    method SetTextContent(id: Id, text: string) returns (created: seq<Id>)
      requires Valid() && id in nodes
      modifies this
      ensures Valid()
      ensures !old(nodes[id]).kind.ElementNode? ==>
                created == [] && nodes == old(nodes)[id := old(nodes[id]).(text := text)]
      ensures old(nodes[id]).kind.ElementNode? && text == "" ==>
                created == [] && nodes == Emptied(old(nodes), id)
      ensures old(nodes[id]).kind.ElementNode? && text != "" ==>
                && |created| == 1 && created[0] !in old(nodes)
                && nodes == Emptied(old(nodes), id)[created[0] := DomNode(TextNode, None, text, [], Some(id))]
                                                   [id := old(nodes[id]).(children := created)]
    {
      created := [];
      ghost var n0 := nodes;
      if !nodes[id].kind.ElementNode? {
        nodes := nodes[id := nodes[id].(text := text)];
        SameLinks(n0, nodes);
      } else {
        EmptiedLinked(nodes, id);
        nodes := Emptied(nodes, id);
        if text != "" {
          var t := Create(TextNode, text);
          AttachedLinked(nodes, id, t, None);
          nodes := Attached(nodes, id, t, None);
          created := [t];
          assert [] + [t] == created;
        }
      }
    }
  }
}
