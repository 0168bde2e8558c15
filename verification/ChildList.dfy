/** Moving and removing the children of an element while its child list is edited. */
module ChildList {
  import opened Common
  import opened Dom
  import opened Mounting
  import opened Rendering

  // ----- a child list under edit

  /** Since n0 only p's child list, the nodes f0 and new nodes changed, and p now shows row. */
  ghost predicate Progress(n0: Store, n: Store, p: Id, f0: set<Id>, row: seq<Mounted>) {
    && Edited(n0, n, p, f0)
    && Grove(n, p, row)
    && FootAll(row) <= f0 + (n.Keys - n0.Keys)
  }

  lemma ProgressStep(n0: Store, n1: Store, n2: Store, p: Id, f0: set<Id>, s: set<Id>, row1: seq<Mounted>,
                     row2: seq<Mounted>)
    requires Progress(n0, n1, p, f0, row1) && Edited(n1, n2, p, s) && Grove(n2, p, row2)
    requires s <= FootAll(row1) && FootAll(row2) <= FootAll(row1) + (n2.Keys - n1.Keys)
    ensures Progress(n0, n2, p, f0, row2) && n0.Keys <= n1.Keys
  {
  }

  lemma FootMoved(s: seq<Mounted>, x: Mounted, t: seq<Mounted>, a: seq<Mounted>, d: seq<Mounted>)
    requires s + t == a + d
    ensures FootAll(a + [x] + d) == FootAll(s + [x] + t)
  {
    hide FootAll, Foot;
    FootRow(s, x, t);
    FootRow(a, x, d);
    FootAllConcat(s, t);
    FootAllConcat(a, d);
  }

  /** Taking x out leaves the reference node a child of p. */
  lemma RefStays(n: Store, p: Id, s: seq<Mounted>, x: Mounted, t: seq<Mounted>, a: seq<Mounted>, d: seq<Mounted>)
    requires Grove(n, p, s + [x] + t) && s + t == a + d
    ensures RefOf(d).Some? ==> RefOf(d).value in n[p].children && RefOf(d).value != x.elm
  {
    if d != [] {
      GroveIs3(n, p, s, x, t);
      FootAllConcat(s, t);
      ElmNotIn(s + t, x);
      assert Elms(s + t) == Elms(s) + Elms(t);
      assert Elms(a + d)[|a|] == d[0].elm;
    }
  }

  /** `insertBefore(p, x.elm, ref)` for a child x of p: row s + [x] + t becomes a + [x] + d. */
  method MoveIn(doc: Document, p: Id, ref: Option<Id>, x: Mounted,
                ghost s: seq<Mounted>, ghost t: seq<Mounted>, ghost a: seq<Mounted>, ghost d: seq<Mounted>)
    requires doc.Valid() && Grove(doc.nodes, p, s + [x] + t)
    requires s + t == a + d && ref == RefOf(d)
    modifies doc
    ensures doc.Valid() && Grove(doc.nodes, p, a + [x] + d)
    ensures Edited(old(doc.nodes), doc.nodes, p, {})
    ensures FootAll(a + [x] + d) == FootAll(s + [x] + t)
  {
    hide Grove, Shows, Linked, AllShow, Apart, Foot, FootAll;
    ghost var n1 := doc.nodes;
    RowParts(n1, p, s, x, t);
    GroveRemove(n1, p, s, x, t);
    ghost var cut := Detached(n1, x.elm);
    DetachedLinked(n1, x.elm);
    RefReady(cut, p, a, d);
    RefStays(n1, p, s, x, t, a, d);
    doc.InsertBefore(p, x.elm, ref);
    ShowsFrame(cut, doc.nodes, x);
    GroveInsert(cut, doc.nodes, p, a, x, d);
    FootMoved(s, x, t, a, d);
  }

  // ----- the slots of the two lists

  /** The defined entries, in order. */
  function Live(s: seq<Option<Mounted>>): seq<Mounted> {
    if s == [] then [] else (if s[0].Some? then [s[0].value] else []) + Live(s[1..])
  }

  lemma {:induction false} LiveConcat(a: seq<Option<Mounted>>, b: seq<Option<Mounted>>)
    ensures Live(a + b) == Live(a) + Live(b)
  {
    if a == [] {
      assert a + b == b;
    } else {
      var h := if a[0].Some? then [a[0].value] else [];
      assert (a + b)[0] == a[0] && (a + b)[1..] == a[1..] + b;
      LiveConcat(a[1..], b);
      assert h + (Live(a[1..]) + Live(b)) == h + Live(a[1..]) + Live(b);
    }
  }

  lemma LiveOne(o: Option<Mounted>)
    ensures Live([o]) == if o.Some? then [o.value] else []
  {
    assert [o][1..] == [];
  }

  lemma LiveThree(x: seq<Option<Mounted>>, o: Option<Mounted>, y: seq<Option<Mounted>>)
    ensures Live(x + [o] + y) == Live(x) + (if o.Some? then [o.value] else []) + Live(y)
  {
    LiveConcat(x + [o], y);
    LiveConcat(x, [o]);
    LiveOne(o);
  }

  function Somes(ms: seq<Mounted>): (r: seq<Option<Mounted>>) {
    seq(|ms|, i requires 0 <= i < |ms| => Some(ms[i]))
  }

  lemma {:induction false} LiveSomes(ms: seq<Mounted>)
    ensures Live(Somes(ms)) == ms
  {
    if ms == [] {
    } else {
      assert Somes(ms)[1..] == Somes(ms[1..]);
      LiveSomes(ms[1..]);
    }
  }

  lemma LiveNone(s: seq<Option<Mounted>>, a: seq<Mounted>, b: seq<Mounted>)
    requires s == []
    ensures a + Live(s) + b == a + b
  {
  }

  lemma LiveFirst(s: seq<Option<Mounted>>, i: int, end: int)
    requires 0 <= i <= end < |s|
    ensures Live(s[i..end + 1]) == Live([s[i]]) + Live(s[i + 1..end + 1])
    ensures Live([s[i]]) == if s[i].Some? then [s[i].value] else []
    ensures s[i].None? ==> Live(s[i..end + 1]) == Live(s[i + 1..end + 1])
  {
    assert s[i..end + 1] == [s[i]] + s[i + 1..end + 1];
    LiveConcat([s[i]], s[i + 1..end + 1]);
    LiveOne(s[i]);
  }

  /** `removeNode(m.elm)`. */
  method RemoveOne(doc: Document, p: Id, m: Mounted, ghost n0: Store, ghost f0: set<Id>,
                   ghost a: seq<Mounted>, ghost c: seq<Mounted>, ghost b: seq<Mounted>)
    requires doc.Valid() && Progress(n0, doc.nodes, p, f0, a + ([m] + c) + b)
    modifies doc
    ensures doc.Valid() && Progress(n0, doc.nodes, p, f0, a + c + b)
    ensures m.elm in doc.nodes && doc.nodes[m.elm].parent == None
    ensures doc.nodes.Keys == old(doc.nodes).Keys
    ensures forall x :: x in doc.nodes && x != m.elm ==> doc.nodes[x].parent == old(doc.nodes)[x].parent
  {
    hide Grove, Shows, Linked, AllShow, FootAll, Foot;
    assert a + ([m] + c) + b == a + [m] + (c + b);
    ghost var n1 := doc.nodes;
    RowParts(n1, p, a, m, c + b);
    GroveRemove(n1, p, a, m, c + b);
    var parent := doc.nodes[m.elm].parent;
    if parent.Some? {
      doc.RemoveChild(parent.value, m.elm);
    }
    assert a + (c + b) == a + c + b;
    FootAllConcat(a, c + b);
  }

  /** `removeVnodes`: the defined entries of olds[start..end+1] leave the document. */
  method RemoveVnodes(doc: Document, p: Id, olds: seq<Option<Mounted>>, start: int, end: int,
                      ghost n0: Store, ghost f0: set<Id>, ghost a: seq<Mounted>, ghost b: seq<Mounted>)
    requires doc.Valid() && 0 <= start <= end + 1 <= |olds|
    requires Progress(n0, doc.nodes, p, f0, a + Live(olds[start..end + 1]) + b)
    modifies doc
    ensures doc.Valid() && Progress(n0, doc.nodes, p, f0, a + b)
    ensures forall k :: start <= k <= end && olds[k].Some? ==>
              olds[k].value.elm in doc.nodes && doc.nodes[olds[k].value.elm].parent == None
  {
    hide Grove, Shows, Linked, AllShow, Live;
    var i := start;
    while i <= end
      invariant start <= i <= end + 1
      invariant doc.Valid() && Progress(n0, doc.nodes, p, f0, a + Live(olds[i..end + 1]) + b)
      invariant forall k :: start <= k < i && olds[k].Some? ==>
                  olds[k].value.elm in doc.nodes && doc.nodes[olds[k].value.elm].parent == None
    {
      var ch := olds[i];
      LiveFirst(olds, i, end);
      if ch.Some? {
        RemoveOne(doc, p, ch.value, n0, f0, a, Live(olds[i + 1..end + 1]), b);
      }
      i := i + 1;
    }
    LiveNone(olds[i..end + 1], a, b);
  }
}
