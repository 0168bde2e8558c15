/** Patching: the in-place update of the document refines building the new tree. */
module Patch {
  import opened Common
  import opened VNodes
  import opened Dom
  import opened Mounting
  import opened Rendering
  import opened ChildList
  import opened Matching
  import opened Rows

  // ----- one turn of the loop

  /** What holds at the head of the loop of UpdateChildren. */
  ghost predicate Loop(old0: seq<Mounted>, newCh: seq<VNode>, n0: Store, n: Store, p: Id,
                       olds: seq<Option<Mounted>>, news: seq<Option<Mounted>>, b: Books, idx: Option<KeyIndex>,
                       os: int, oe: int, ns: int, ne: int) {
    && |news| == |newCh| && Range(old0, olds, news, b, os, oe, ns, ne)
    && Matched(old0, newCh, n0.Keys, news, b)
    && Indexed(old0, b, idx)
    && (idx.None? ==> Untaken(olds, os, oe))
    && Progress(n0, n, p, FootAll(old0), Row(olds, news, os, oe, ns, ne))
  }

  /** What the two lists must be for the update to be called. */
  ghost predicate Lists(old0: seq<Mounted>, newCh: seq<VNode>) {
    && (forall i :: 0 <= i < |old0| ==> WellFormed(old0[i].vnode))
    && (forall j :: 0 <= j < |newCh| ==> WellFormed(newCh[j]) && Patchable(newCh[j]))
    && UniqueKeys(newCh)
  }

  ghost function Took(b: Books, i: nat, j: nat): Books
    requires i < |b.taken| && j < |b.src|
  {
    Books(b.taken[i := Some(j)], b.src[j := Some(i)])
  }

  /** The cursors move over old slot i and new slot j. */
  ghost predicate Passes(olds: seq<Option<Mounted>>, olds': seq<Option<Mounted>>, os: int, oe: int, ns: int, ne: int,
                         i: int, j: int, os': int, oe': int, ns': int, ne': int)
    requires 0 <= i < |olds|
  {
    && ((i == os && os' == os + 1 && oe' == oe && olds' == olds)
     || (i == oe && os' == os && oe' == oe - 1 && olds' == olds)
     || (os' == os && oe' == oe && olds' == olds[i := None]))
    && ((j == ns && ns' == ns + 1 && ne' == ne) || (j == ne && ns' == ns && ne' == ne - 1))
  }

  lemma RangeTake(old0: seq<Mounted>, olds: seq<Option<Mounted>>, news: seq<Option<Mounted>>, b: Books,
                  os: int, oe: int, ns: int, ne: int, i: int, j: int, r: Mounted,
                  olds': seq<Option<Mounted>>, os': int, oe': int, ns': int, ne': int)
    requires Range(old0, olds, news, b, os, oe, ns, ne)
    requires os <= i <= oe && olds[i].Some? && ns <= ne && Passes(olds, olds', os, oe, ns, ne, i, j, os', oe', ns', ne')
    ensures b.taken[i].None? && news[j].None? && olds[i].value == old0[i]
    ensures Range(old0, olds', news[j := Some(r)], Took(b, i, j), os', oe', ns', ne')
  {
  }

  /** Old slot i is taken by new slot j, at whichever cursors they stand. */
  lemma TakeStep(old0: seq<Mounted>, newCh: seq<VNode>, keys0: set<Id>, olds: seq<Option<Mounted>>,
                 news: seq<Option<Mounted>>, b: Books, idx: Option<KeyIndex>, os: int, oe: int, ns: int, ne: int,
                 i: int, j: int, r: Mounted, olds': seq<Option<Mounted>>, os': int, oe': int, ns': int, ne': int)
    requires |news| == |newCh| && Range(old0, olds, news, b, os, oe, ns, ne)
    requires Matched(old0, newCh, keys0, news, b) && Indexed(old0, b, idx)
    requires os <= i <= oe && olds[i].Some? && ns <= ne && Passes(olds, olds', os, oe, ns, ne, i, j, os', oe', ns', ne')
    requires r.vnode == newCh[j] && r.elm == olds[i].value.elm && SameVnode(olds[i].value.vnode, newCh[j])
    requires Follows(Some(olds[i].value), r)
    requires idx.None? ==> olds' == olds && Untaken(olds, os, oe)
    ensures Range(old0, olds', news[j := Some(r)], Took(b, i, j), os', oe', ns', ne')
    ensures Matched(old0, newCh, keys0, news[j := Some(r)], Took(b, i, j))
    ensures Indexed(old0, Took(b, i, j), idx)
    ensures idx.None? ==> Untaken(olds', os', oe')
  {
    hide Matched, SameVnode, Follows;
    RangeTake(old0, olds, news, b, os, oe, ns, ne, i, j, r, olds', os', oe', ns', ne');
    MatchTake(old0, newCh, keys0, news, b, i, j, r);
  }

  /** `patchVnode` on one child of p. */
  method PatchIn(doc: Document, p: Id, ghost n0: Store, ghost f0: set<Id>,
                 ghost a: seq<Mounted>, m: Mounted, ghost b: seq<Mounted>, v: VNode) returns (r: Mounted)
    requires doc.Valid() && Progress(n0, doc.nodes, p, f0, a + [m] + b)
    requires WellFormed(m.vnode) && WellFormed(v) && Patchable(v) && SameVnode(m.vnode, v)
    modifies doc
    ensures doc.Valid() && Progress(n0, doc.nodes, p, f0, a + [r] + b)
    ensures r.vnode == v && r.elm == m.elm && Follows(Some(m), r)
    decreases v, 2
  {
    hide Follows, Grove, Shows, Linked, AllShow, WellFormed, Patchable, SameVnode;
    ghost var n1 := doc.nodes;
    RowParts(n1, p, a, m, b);
    r := PatchVnode(doc, m, v);
    GroveReplace(n1, doc.nodes, p, a, m, r, b);
    FootRow(a, m, b);
    FootRow(a, r, b);
    ProgressStep(n0, n1, doc.nodes, p, f0, Foot(m), a + [m] + b, a + [r] + b);
  }

  /** The first nodes of both lists left are the same: patched in place. */
  method SameStart(doc: Document, p: Id, ghost old0: seq<Mounted>, newCh: seq<VNode>, ghost n0: Store,
                   olds: seq<Option<Mounted>>, news: seq<Option<Mounted>>, ghost b: Books, ghost idx: Option<KeyIndex>,
                   os: int, oe: int, ns: int, ne: int) returns (r: Mounted)
    requires doc.Valid() && Lists(old0, newCh)
    requires Loop(old0, newCh, n0, doc.nodes, p, olds, news, b, idx, os, oe, ns, ne)
    requires os <= oe && ns <= ne && olds[os].Some? && SameVnode(olds[os].value.vnode, newCh[ns])
    modifies doc
    ensures doc.Valid()
    ensures Loop(old0, newCh, n0, doc.nodes, p, olds, news[ns := Some(r)], Took(b, os, ns), idx, os + 1, oe, ns + 1, ne)
    decreases newCh, 0
  {
    hide Follows, Grove, Shows, Linked, AllShow, SameVnode, Matched, Indexed, Progress, WellFormed, Patchable;
    var m := olds[os].value;
    ghost var a, c, d := Live(news[..ns]), Live(olds[os + 1..oe + 1]), Live(news[ne + 1..]);
    RowStart(olds, news, os, oe, ns, ne, m);
    r := PatchIn(doc, p, n0, FootAll(old0), a, m, c + d, newCh[ns]);
    RowStart(olds, news, os, oe, ns, ne, r);
    TakeStep(old0, newCh, n0.Keys, olds, news, b, idx, os, oe, ns, ne, os, ns, r, olds, os + 1, oe, ns + 1, ne);
  }

  /** The last nodes of both lists left are the same: patched in place. */
  method SameEnd(doc: Document, p: Id, ghost old0: seq<Mounted>, newCh: seq<VNode>, ghost n0: Store,
                 olds: seq<Option<Mounted>>, news: seq<Option<Mounted>>, ghost b: Books, ghost idx: Option<KeyIndex>,
                 os: int, oe: int, ns: int, ne: int) returns (r: Mounted)
    requires doc.Valid() && Lists(old0, newCh)
    requires Loop(old0, newCh, n0, doc.nodes, p, olds, news, b, idx, os, oe, ns, ne)
    requires os <= oe && ns <= ne && olds[oe].Some? && SameVnode(olds[oe].value.vnode, newCh[ne])
    modifies doc
    ensures doc.Valid()
    ensures Loop(old0, newCh, n0, doc.nodes, p, olds, news[ne := Some(r)], Took(b, oe, ne), idx, os, oe - 1, ns, ne - 1)
    decreases newCh, 0
  {
    hide Follows, Grove, Shows, Linked, AllShow, SameVnode, Matched, Indexed, Progress, WellFormed, Patchable;
    var m := olds[oe].value;
    ghost var a, c, d := Live(news[..ns]), Live(olds[os..oe]), Live(news[ne + 1..]);
    RowEnd(olds, news, os, oe, ns, ne, m);
    r := PatchIn(doc, p, n0, FootAll(old0), a + c, m, d, newCh[ne]);
    RowEnd(olds, news, os, oe, ns, ne, r);
    TakeStep(old0, newCh, n0.Keys, olds, news, b, idx, os, oe, ns, ne, oe, ne, r, olds, os, oe - 1, ns, ne - 1);
  }

  lemma NextInRow(doc: Document, p: Id, s: seq<Mounted>, z: Mounted, d: seq<Mounted>)
    requires doc.Valid() && Grove(doc.nodes, p, s + [z] + d)
    ensures z.elm in doc.nodes && doc.NextSibling(z.elm) == RefOf(d)
  {
    GroveIs3(doc.nodes, p, s, z, d);
    assert doc.nodes[p].children[|s|] == z.elm;
    assert LinkedAt(doc.nodes, p);
    ElmNotIn(s, z);
    IndexOfUnique(Elms(s), z.elm, Elms(d));
    assert d != [] ==> doc.nodes[p].children[|s| + 1] == d[0].elm;
  }

  /** The first old node is the last new one: it is patched and moved behind the last old node. */
  method MovedRight(doc: Document, p: Id, ghost old0: seq<Mounted>, newCh: seq<VNode>, ghost n0: Store,
                    olds: seq<Option<Mounted>>, news: seq<Option<Mounted>>, ghost b: Books, ghost idx: Option<KeyIndex>,
                    os: int, oe: int, ns: int, ne: int) returns (r: Mounted)
    requires doc.Valid() && Lists(old0, newCh)
    requires Loop(old0, newCh, n0, doc.nodes, p, olds, news, b, idx, os, oe, ns, ne)
    requires os < oe && ns <= ne && olds[os].Some? && olds[oe].Some? && SameVnode(olds[os].value.vnode, newCh[ne])
    modifies doc
    ensures doc.Valid()
    ensures Loop(old0, newCh, n0, doc.nodes, p, olds, news[ne := Some(r)], Took(b, os, ne), idx, os + 1, oe, ns, ne - 1)
    decreases newCh, 0
  {
    hide Follows, Grove, Shows, Linked, AllShow, SameVnode, Matched, Indexed, Edited, WellFormed, Patchable, FootAll,
         Live;
    var m := olds[os].value;
    ghost var a, c, d := Live(news[..ns]), Live(olds[os + 1..oe + 1]), Live(news[ne + 1..]);
    RowStart(olds, news, os, oe, ns, ne, m);
    r := PatchIn(doc, p, n0, FootAll(old0), a, m, c + d, newCh[ne]);
    RowStart(olds, news, os, oe, ns, ne, r);
    ghost var c' := Live(olds[os + 1..oe]);
    LiveTail(olds, os + 1, oe);
    var z := olds[oe].value;
    assert a + [r] + (c + d) == (a + [r] + c') + [z] + d;
    NextInRow(doc, p, a + [r] + c', z, d);
    ghost var n1 := doc.nodes;
    assert a + (c + d) == (a + c) + d;
    MoveIn(doc, p, doc.NextSibling(z.elm), r, a, c + d, a + c, d);
    ProgressStep(n0, n1, doc.nodes, p, FootAll(old0), {}, a + [r] + (c + d), (a + c) + [r] + d);
    TakeStep(old0, newCh, n0.Keys, olds, news, b, idx, os, oe, ns, ne, os, ne, r, olds, os + 1, oe, ns, ne - 1);
  }

  /** The last old node is the first new one: it is patched and moved before the first old node. */
  method MovedLeft(doc: Document, p: Id, ghost old0: seq<Mounted>, newCh: seq<VNode>, ghost n0: Store,
                   olds: seq<Option<Mounted>>, news: seq<Option<Mounted>>, ghost b: Books, ghost idx: Option<KeyIndex>,
                   os: int, oe: int, ns: int, ne: int) returns (r: Mounted)
    requires doc.Valid() && Lists(old0, newCh)
    requires Loop(old0, newCh, n0, doc.nodes, p, olds, news, b, idx, os, oe, ns, ne)
    requires os < oe && ns <= ne && olds[os].Some? && olds[oe].Some? && SameVnode(olds[oe].value.vnode, newCh[ns])
    modifies doc
    ensures doc.Valid()
    ensures Loop(old0, newCh, n0, doc.nodes, p, olds, news[ns := Some(r)], Took(b, oe, ns), idx, os, oe - 1, ns + 1, ne)
    decreases newCh, 0
  {
    hide Follows, Grove, Shows, Linked, AllShow, SameVnode, Matched, Indexed, Edited, WellFormed, Patchable, FootAll,
         Live;
    var m := olds[oe].value;
    ghost var a, c, d := Live(news[..ns]), Live(olds[os..oe]), Live(news[ne + 1..]);
    RowEnd(olds, news, os, oe, ns, ne, m);
    r := PatchIn(doc, p, n0, FootAll(old0), a + c, m, d, newCh[ns]);
    RowEnd(olds, news, os, oe, ns, ne, r);
    LiveHead(olds, os, oe - 1, d);
    ghost var n1 := doc.nodes;
    assert (a + c) + d == a + (c + d);
    MoveIn(doc, p, Some(olds[os].value.elm), r, a + c, d, a, c + d);
    ProgressStep(n0, n1, doc.nodes, p, FootAll(old0), {}, (a + c) + [r] + d, a + [r] + (c + d));
    TakeStep(old0, newCh, n0.Keys, olds, news, b, idx, os, oe, ns, ne, oe, ns, r, olds, os, oe - 1, ns + 1, ne);
  }

  /** The old node i, found by key or by search, is the first new one: it is patched, blanked and moved
      before the first old node. */
  method MovedFromMiddle(doc: Document, p: Id, ghost old0: seq<Mounted>, newCh: seq<VNode>, ghost n0: Store,
                         olds: seq<Option<Mounted>>, news: seq<Option<Mounted>>, ghost b: Books,
                         ghost idx: Option<KeyIndex>,
                         os: int, oe: int, ns: int, ne: int, i: int) returns (r: Mounted, olds': seq<Option<Mounted>>)
    requires doc.Valid() && Lists(old0, newCh) && idx.Some?
    requires Loop(old0, newCh, n0, doc.nodes, p, olds, news, b, idx, os, oe, ns, ne)
    requires os < i <= oe && ns <= ne && olds[os].Some? && olds[i].Some? && SameVnode(olds[i].value.vnode, newCh[ns])
    modifies doc
    ensures doc.Valid() && olds' == olds[i := None]
    ensures Loop(old0, newCh, n0, doc.nodes, p, olds', news[ns := Some(r)], Took(b, i, ns), idx, os, oe, ns + 1, ne)
    decreases newCh, 0
  {
    hide Follows, Grove, Shows, Linked, AllShow, SameVnode, Matched, Indexed, Edited, WellFormed, Patchable, FootAll,
         Live;
    var m := olds[i].value;
    ghost var a, x, y, d := Live(news[..ns]), Live(olds[os..i]), Live(olds[i + 1..oe + 1]), Live(news[ne + 1..]);
    RowMiddle(olds, news, os, oe, ns, ne, i, m);
    r := PatchIn(doc, p, n0, FootAll(old0), a + x, m, y + d, newCh[ns]);
    olds' := olds[i := None];
    RowMiddle(olds, news, os, oe, ns, ne, i, r);
    ghost var n1 := doc.nodes;
    MoveIn(doc, p, Some(olds[os].value.elm), r, a + x, y + d, a, x + y + d);
    ProgressStep(n0, n1, doc.nodes, p, FootAll(old0), {}, (a + x) + [r] + (y + d), a + [r] + (x + y + d));
    TakeStep(old0, newCh, n0.Keys, olds, news, b, idx, os, oe, ns, ne, i, ns, r, olds', os, oe, ns + 1, ne);
  }

  /** No old slot between the cursors has a node that is the same as v. */
  ghost predicate NoneBetween(olds: seq<Option<Mounted>>, os: int, oe: int, v: VNode) {
    forall i :: 0 <= os <= i <= oe < |olds| && olds[i].Some? ==> !SameVnode(olds[i].value.vnode, v)
  }

  lemma NoneIsLeft(old0: seq<Mounted>, olds: seq<Option<Mounted>>, news: seq<Option<Mounted>>, b: Books,
                   os: int, oe: int, ns: int, ne: int, v: VNode)
    requires Range(old0, olds, news, b, os, oe, ns, ne) && NoneBetween(olds, os, oe, v)
    ensures NoneLeft(old0, b, v)
  {
    hide SameVnode;
    forall i | 0 <= i < |old0| && b.taken[i].None? ensures !SameVnode(old0[i].vnode, v) {
      assert olds[i] == Some(old0[i]);
    }
  }

  /** The first new node has no old partner: it is created before the first old node. */
  method CreatedNew(doc: Document, p: Id, ghost old0: seq<Mounted>, newCh: seq<VNode>, ghost n0: Store,
                    olds: seq<Option<Mounted>>, news: seq<Option<Mounted>>, ghost b: Books, ghost idx: Option<KeyIndex>,
                    os: int, oe: int, ns: int, ne: int) returns (r: Mounted)
    requires doc.Valid() && Lists(old0, newCh) && idx.Some?
    requires Loop(old0, newCh, n0, doc.nodes, p, olds, news, b, idx, os, oe, ns, ne)
    requires os <= oe && ns <= ne && olds[os].Some?
    requires newCh[ns].key.Some? && newCh[ns].key.value in idx.value ==>
               !SameVnode(old0[idx.value[newCh[ns].key.value]].vnode, newCh[ns])
    requires newCh[ns].key.None? ==> NoneBetween(olds, os, oe, newCh[ns])
    modifies doc
    ensures doc.Valid()
    ensures Loop(old0, newCh, n0, doc.nodes, p, olds, news[ns := Some(r)], b, idx, os, oe, ns + 1, ne)
    decreases newCh, 0
  {
    hide Whole, Grove, Shows, Linked, AllShow, SameVnode, Matched, Edited, WellFormed, Patchable, FootAll, Live,
         UniqueOldKeys, UniqueKeys, NoneLeft, NoneBetween;
    ghost var a, c, d := Live(news[..ns]), Live(olds[os..oe + 1]), Live(news[ne + 1..]);
    ghost var n1 := doc.nodes;
    RowNew(olds, news, os, oe, ns, ne, olds[os].value);
    r := CreateIn(doc, p, Some(olds[os].value.elm), newCh[ns], a, c + d);
    RowNew(olds, news, os, oe, ns, ne, r);
    ProgressStep(n0, n1, doc.nodes, p, FootAll(old0), {}, a + (c + d), a + [r] + (c + d));
    NoPartner(old0, newCh, n0.Keys, news, b, idx.value, ns);
    if newCh[ns].key.None? {
      NoneIsLeft(old0, olds, news, b, os, oe, ns, ne, newCh[ns]);
    }
    MatchCreate(old0, newCh, n0.Keys, news, b, ns, r);
  }

  // ----- the whole update of a child list

  /** Where a rendered list took its elements from: an element that was there before is that of an old node
      `sameVnode` with the new one, every keyed pair keeps its element, no old node is left over that is the same as a
      created one without a key or with a unique one, and empty texts are lost just where Follows says. */
  ghost predicate Reused(oldCh: seq<Mounted>, newCh: seq<VNode>, res: seq<Mounted>, before: set<Id>)
    requires |res| == |newCh|
  {
    && (forall j :: 0 <= j < |res| && res[j].elm in before ==>
          exists i :: 0 <= i < |oldCh| && oldCh[i].elm == res[j].elm && SameVnode(oldCh[i].vnode, newCh[j]))
    && (UniqueOldKeys(oldCh) ==>
          forall i, j :: 0 <= i < |oldCh| && 0 <= j < |newCh| && KeyedPair(oldCh[i].vnode, newCh[j]) ==>
            res[j].elm == oldCh[i].elm)
    && (forall i, j ::
          0 <= i < |oldCh| && 0 <= j < |newCh| && oldCh[i].elm !in Elms(res) && res[j].elm !in before &&
          (newCh[j].key.None? || UniqueOldKeys(oldCh)) ==>
            !SameVnode(oldCh[i].vnode, newCh[j]))
    && (forall j :: 0 <= j < |res| ==> Follows(Bearer(oldCh, res[j].elm), res[j]))
  }

  /** The old nodes have elements of their own, all from before. */
  ghost predicate OldNodes(oldCh: seq<Mounted>, before: set<Id>) {
    Distinct(Elms(oldCh)) && forall i :: 0 <= i < |oldCh| ==> oldCh[i].elm in before
  }

  /** Every old node that the new list does not reuse has left the document. */
  ghost predicate Discarded(n: Store, oldCh: seq<Mounted>, res: seq<Mounted>) {
    forall i :: 0 <= i < |oldCh| && oldCh[i].elm !in Elms(res) ==>
      oldCh[i].elm in n && n[oldCh[i].elm].parent == None
  }

  function Blank(k: nat): (r: seq<Option<Mounted>>) {
    seq(k, i requires 0 <= i < k => None)
  }

  /** Nothing taken, nothing placed. */
  ghost function NoBooks(m: nat, n: nat): Books {
    Books(seq(m, i requires 0 <= i < m => None), seq(n, j requires 0 <= j < n => None))
  }

  lemma BooksStart(oldCh: seq<Mounted>, newCh: seq<VNode>, keys0: set<Id>)
    ensures Range(oldCh, Somes(oldCh), Blank(|newCh|), NoBooks(|oldCh|, |newCh|), 0, |oldCh| - 1, 0, |newCh| - 1)
    ensures Matched(oldCh, newCh, keys0, Blank(|newCh|), NoBooks(|oldCh|, |newCh|))
  {
  }

  lemma GroveFoot(n: Store, p: Id, ms: seq<Mounted>)
    requires Grove(n, p, ms)
    ensures p in n && p !in FootAll(ms) && FootAll(ms) <= n.Keys
  {
    AllShowInStore(n, ms);
  }

  lemma LoopStart(oldCh: seq<Mounted>, newCh: seq<VNode>, n: Store, p: Id) returns (b: Books)
    requires Grove(n, p, oldCh)
    ensures Loop(oldCh, newCh, n, n, p, Somes(oldCh), Blank(|newCh|), b, None, 0, |oldCh| - 1, 0, |newCh| - 1)
  {
    hide Grove, Matched, Range, Live, SameVnode;
    b := NoBooks(|oldCh|, |newCh|);
    BooksStart(oldCh, newCh, n.Keys);
    LiveSomes(oldCh);
    var olds, news := Somes(oldCh), Blank(|newCh|);
    assert olds[0..|olds|] == olds && news[..0] == [] && news[|news|..] == [];
    LiveNone([], [], []);
    assert Live([]) == [] && [] + oldCh + [] == oldCh;
    GroveFoot(n, p, oldCh);
  }

  lemma IndexBuilt(old0: seq<Mounted>, newCh: seq<VNode>, n0: Store, n: Store, p: Id,
                   olds: seq<Option<Mounted>>, news: seq<Option<Mounted>>, b: Books,
                   os: int, oe: int, ns: int, ne: int, m: KeyIndex)
    requires Loop(old0, newCh, n0, n, p, olds, news, b, None, os, oe, ns, ne)
    requires forall k :: k in m ==> os <= m[k] <= oe && olds[m[k]].value.vnode.key == Some(k)
    requires forall i :: os <= i <= oe && olds[i].value.vnode.key.Some? ==> olds[i].value.vnode.key.value in m
    ensures Loop(old0, newCh, n0, n, p, olds, news, b, Some(m), os, oe, ns, ne)
  {
    hide Matched, Progress;
  }

  /** What the index says of the next key: an old slot between the cursors, not yet taken. */
  lemma LookUp(old0: seq<Mounted>, newCh: seq<VNode>, n0: Store, n: Store, p: Id,
               olds: seq<Option<Mounted>>, news: seq<Option<Mounted>>, b: Books, m: KeyIndex,
               os: int, oe: int, ns: int, ne: int)
    requires Loop(old0, newCh, n0, n, p, olds, news, b, Some(m), os, oe, ns, ne) && UniqueKeys(newCh)
    requires ns <= ne && newCh[ns].key.Some? && newCh[ns].key.value in m
    ensures var i := m[newCh[ns].key.value];
            os <= i <= oe && olds[i] == Some(old0[i])
  {
    hide Progress;
    TakenBy(old0, newCh, n0.Keys, news, b, m[newCh[ns].key.value], ns);
  }

  lemma Skip(old0: seq<Mounted>, newCh: seq<VNode>, n0: Store, n: Store, p: Id,
             olds: seq<Option<Mounted>>, news: seq<Option<Mounted>>, b: Books, idx: Option<KeyIndex>,
             os: int, oe: int, ns: int, ne: int)
    requires Loop(old0, newCh, n0, n, p, olds, news, b, idx, os, oe, ns, ne) && os <= oe
    ensures olds[os].None? ==> Loop(old0, newCh, n0, n, p, olds, news, b, idx, os + 1, oe, ns, ne)
    ensures olds[oe].None? ==> Loop(old0, newCh, n0, n, p, olds, news, b, idx, os, oe - 1, ns, ne)
  {
    hide Matched, Progress;
    RowSkip(olds, news, os, oe, ns, ne);
  }

  lemma {:induction false} LiveAll(s: seq<Option<Mounted>>)
    requires forall k :: 0 <= k < |s| ==> s[k].Some?
    ensures |Live(s)| == |s| && forall k :: 0 <= k < |s| ==> Live(s)[k] == s[k].value
  {
    if s == [] {
    } else {
      LiveAll(s[1..]);
    }
  }

  /** The elements of the result are from where the books say. */
  ghost predicate Sourced(oldCh: seq<Mounted>, b: Books, res: seq<Mounted>) {
    && |b.src| == |res|
    && forall j :: 0 <= j < |res| && b.src[j].Some? ==>
         b.src[j].value < |oldCh| && res[j].elm == oldCh[b.src[j].value].elm
  }

  /** The loop's books, once every new slot is filled, say how the result reuses the old list. */
  lemma BooksClosed(oldCh: seq<Mounted>, newCh: seq<VNode>, before: set<Id>, b: Books, res: seq<Mounted>)
    requires |res| == |newCh| && Matched(oldCh, newCh, before, Somes(res), b) && OldNodes(oldCh, before)
    ensures Reused(oldCh, newCh, res, before)
    ensures forall j :: 0 <= j < |res| ==> res[j].vnode == newCh[j]
    ensures forall i :: 0 <= i < |oldCh| && b.taken[i].Some? ==> oldCh[i].elm in Elms(res)
    ensures Sourced(oldCh, b, res)
  {
    hide Follows, Whole, Bearer, SameInputType;
    var news := Somes(res);
    forall j | 0 <= j < |res| ensures Follows(Bearer(oldCh, res[j].elm), res[j]) {
      assert news[j].Some?;
      if b.src[j].Some? {
        assert Reuses(oldCh, newCh, news, b, j);
        BearerAt(oldCh, b.src[j].value);
      } else {
        BearerNone(oldCh, res[j].elm);
        FollowsNone(res[j]);
      }
    }
    forall j | 0 <= j < |res| && b.src[j].Some?
      ensures b.src[j].value < |oldCh| && oldCh[b.src[j].value].elm == res[j].elm
      ensures SameVnode(oldCh[b.src[j].value].vnode, newCh[j])
    {
      assert Reuses(oldCh, newCh, news, b, j);
    }
    forall j | 0 <= j < |res| ensures res[j].vnode == newCh[j] {
      assert news[j].Some?;
    }
    forall i | 0 <= i < |oldCh| && b.taken[i].Some? ensures oldCh[i].elm in Elms(res) {
      var j := b.taken[i].value;
      assert Reuses(oldCh, newCh, news, b, j);
      assert Elms(res)[j] == oldCh[i].elm;
    }
    forall i, j | 0 <= i < |oldCh| && 0 <= j < |newCh| && oldCh[i].elm !in Elms(res) && res[j].elm !in before
      ensures (newCh[j].key.None? || UniqueOldKeys(oldCh)) ==> !SameVnode(oldCh[i].vnode, newCh[j])
    {
      assert b.taken[i].None?;
      assert news[j].Some? && b.src[j].None?;
      assert newCh[j].key.Some? && UniqueOldKeys(oldCh) ==> !KeyedPair(oldCh[i].vnode, newCh[j]);
    }
    if UniqueOldKeys(oldCh) {
      forall i, j | 0 <= i < |oldCh| && 0 <= j < |newCh| && KeyedPair(oldCh[i].vnode, newCh[j])
        ensures res[j].elm == oldCh[i].elm
      {
        assert news[j].Some?;
        assert b.src[j].Some?;
        var k := b.src[j].value;
        assert oldCh[k].vnode.key == oldCh[i].vnode.key;
        assert i == k;
      }
    }
  }

  /** The slots between the cursors are filled with the created nodes ms; all others were filled before. */
  lemma Filled(news: seq<Option<Mounted>>, ns: int, ne: int, ms: seq<Mounted>)
    requires 0 <= ns <= ne + 1 <= |news| && |ms| == ne + 1 - ns
    requires forall j :: 0 <= j < |news| ==> (news[j].Some? <==> j < ns || j > ne)
    ensures var res := Live(news[..ns]) + ms + Live(news[ne + 1..]);
            && |res| == |news|
            && forall j :: 0 <= j < |news| ==> res[j] == if ns <= j <= ne then ms[j - ns] else news[j].value
  {
    LiveAll(news[..ns]);
    LiveAll(news[ne + 1..]);
  }

  lemma MatchFill(old0: seq<Mounted>, newCh: seq<VNode>, keys0: set<Id>, news: seq<Option<Mounted>>, b: Books,
                  ns: int, ne: int, ms: seq<Mounted>, res: seq<Mounted>)
    requires Matched(old0, newCh, keys0, news, b) && UniqueKeys(newCh)
    requires 0 <= ns <= ne + 1 <= |news| && |ms| == ne + 1 - ns
    requires forall j :: 0 <= j < |news| ==> (news[j].Some? <==> j < ns || j > ne)
    requires ns <= ne ==> forall i :: 0 <= i < |old0| ==> b.taken[i].Some?
    requires forall k :: 0 <= k < |ms| ==> ms[k].vnode == newCh[ns + k] && ms[k].elm !in keys0 && Whole(ms[k])
    requires |res| == |news|
    requires forall j :: 0 <= j < |news| ==> res[j] == if ns <= j <= ne then ms[j - ns] else news[j].value
    ensures Matched(old0, newCh, keys0, Somes(res), b)
  {
    hide Follows, Whole;
    var full := Somes(res);
    forall j | 0 <= j < |newCh| && b.src[j].Some? ensures Reuses(old0, newCh, full, b, j) {
      assert Reuses(old0, newCh, news, b, j);
    }
    forall j | ns <= j <= ne ensures NoKeyedPair(old0, newCh[j]) {
      forall i | 0 <= i < |old0| ensures !KeyedPair(old0[i].vnode, newCh[j]) {
        if newCh[j].key.Some? {
          TakenBy(old0, newCh, keys0, news, b, i, j);
        }
      }
    }
    forall j | 0 <= j < |full| && b.src[j].None?
      ensures full[j].value.elm !in keys0 && (UniqueOldKeys(old0) ==> NoKeyedPair(old0, newCh[j]))
    {
      assert !(ns <= j <= ne) ==> news[j].Some?;
    }
  }

  lemma GroveDenotes(n: Store, p: Id, old0: seq<Mounted>, n0: Store, ms: seq<Mounted>, vs: seq<VNode>)
    requires Linked(n) && Progress(n0, n, p, FootAll(old0), ms) && |ms| == |vs| && Lists(old0, vs)
    requires forall j :: 0 <= j < |ms| ==> ms[j].vnode == vs[j]
    ensures p in n && n[p].children == Elms(ms) && Distinct(Elms(ms))
    ensures forall j :: 0 <= j < |ms| ==> (Denotes(n, ms[j].elm, Build(vs[j])) <==> Whole(ms[j]))
  {
    assert LinkedAt(n, p);
    assert AllShow(n, ms);
    forall j | 0 <= j < |ms| ensures Denotes(n, ms[j].elm, Build(vs[j])) <==> Whole(ms[j]) {
      DenotesBuilt(n, ms[j]);
    }
  }

  lemma OldOnes(oldCh: seq<Mounted>, before: set<Id>)
    requires Distinct(Elms(oldCh)) && forall i :: 0 <= i < |oldCh| ==> oldCh[i].elm in before
    ensures OldNodes(oldCh, before)
  {
  }

  lemma LoopBounds(old0: seq<Mounted>, newCh: seq<VNode>, n0: Store, n: Store, p: Id,
                   olds: seq<Option<Mounted>>, news: seq<Option<Mounted>>, b: Books, idx: Option<KeyIndex>,
                   os: int, oe: int, ns: int, ne: int)
    requires Loop(old0, newCh, n0, n, p, olds, news, b, idx, os, oe, ns, ne)
    ensures |olds| == |old0| == |b.taken| && |news| == |newCh| == |b.src|
    ensures 0 <= os <= oe + 1 <= |olds| && 0 <= ns <= ne + 1 <= |news|
    ensures forall i :: os <= i <= oe && olds[i].Some? ==> olds[i].value == old0[i]
    ensures forall j :: 0 <= j < |news| ==> (news[j].Some? <==> j < ns || j > ne)
    ensures if idx.None? then Untaken(olds, os, oe) else forall k :: k in idx.value ==> idx.value[k] < |old0|
  {
    hide Matched, Progress;
  }

  lemma FootRest(a: seq<Mounted>, ms: seq<Mounted>, d: seq<Mounted>)
    ensures FootAll(a + ms + d) == FootAll(a + d) + FootAll(ms)
  {
    FootAllConcat(a, ms);
    FootAllConcat(a + ms, d);
    FootAllConcat(a, d);
  }

  lemma FreshElms(ms: seq<Mounted>, before: set<Id>)
    requires FootAll(ms) !! before
    ensures forall k :: 0 <= k < |ms| ==> ms[k].elm !in before
  {
    forall k | 0 <= k < |ms| ensures ms[k].elm !in before {
      assert ms[k].elm in Foot(ms[k]);
      assert ms[k].elm in FootAll(ms);
    }
  }

  /** The old list is used up: what is left of the new one is created before ref. */
  method AppendRest(doc: Document, p: Id, ref: Option<Id>, ghost oldCh: seq<Mounted>, newCh: seq<VNode>,
                    ghost n0: Store,
                    olds: seq<Option<Mounted>>, news: seq<Option<Mounted>>, ghost b: Books, ghost idx: Option<KeyIndex>,
                    os: int, oe: int, ns: int, ne: int) returns (res: seq<Mounted>)
    requires doc.Valid() && Lists(oldCh, newCh) && OldNodes(oldCh, n0.Keys) && os > oe
    requires Loop(oldCh, newCh, n0, doc.nodes, p, olds, news, b, idx, os, oe, ns, ne)
    requires ref == if ne + 1 < |newCh| then Some(news[ne + 1].value.elm) else None
    modifies doc
    ensures doc.Valid() && Progress(n0, doc.nodes, p, FootAll(oldCh), res)
    ensures |res| == |newCh| && forall j :: 0 <= j < |res| ==> res[j].vnode == newCh[j]
    ensures Reused(oldCh, newCh, res, n0.Keys) && Discarded(doc.nodes, oldCh, res) && Sourced(oldCh, b, res)
    decreases newCh, 0
  {
    hide Grove, Shows, Linked, AllShow, SameVnode, Matched, Edited, Patchable, WellFormed, UniqueKeys, FootAll, Reused,
         Indexed, Whole, OldNodes;
    ghost var n1 := doc.nodes;
    var a, d := Live(news[..ns]), Live(news[ne + 1..]);
    assert olds[os..oe + 1] == [];
    assert a + [] + d == a + d;
    LiveAll(news[ne + 1..]);
    var ms := AddVnodes(doc, p, ref, newCh, ns, ne, a, d);
    res := a + ms + d;
    RefReady(doc.nodes, p, a + ms, d);
    FootRest(a, ms, d);
    FreshElms(ms, n1.Keys);
    ProgressStep(n0, n1, doc.nodes, p, FootAll(oldCh), {}, a + d, res);
    Filled(news, ns, ne, ms);
    MatchFill(oldCh, newCh, n0.Keys, news, b, ns, ne, ms, res);
    BooksClosed(oldCh, newCh, n0.Keys, b, res);
  }

  /** The new list is used up: what is left of the old one leaves the document. */
  method DropRest(doc: Document, p: Id, ghost oldCh: seq<Mounted>, ghost newCh: seq<VNode>, ghost n0: Store,
                  olds: seq<Option<Mounted>>, news: seq<Option<Mounted>>, ghost b: Books, ghost idx: Option<KeyIndex>,
                  os: int, oe: int, ns: int, ne: int) returns (res: seq<Mounted>)
    requires doc.Valid() && Lists(oldCh, newCh) && OldNodes(oldCh, n0.Keys) && ns > ne
    requires Loop(oldCh, newCh, n0, doc.nodes, p, olds, news, b, idx, os, oe, ns, ne)
    modifies doc
    ensures doc.Valid() && Progress(n0, doc.nodes, p, FootAll(oldCh), res)
    ensures |res| == |newCh| && forall j :: 0 <= j < |res| ==> res[j].vnode == newCh[j]
    ensures Reused(oldCh, newCh, res, n0.Keys) && Discarded(doc.nodes, oldCh, res) && Sourced(oldCh, b, res)
  {
    hide Grove, Shows, Linked, AllShow, SameVnode, Matched, Edited, Patchable, WellFormed, UniqueKeys, FootAll, Reused,
         Indexed, Whole, OldNodes;
    var a, d := Live(news[..ns]), Live(news[ne + 1..]);
    RemoveVnodes(doc, p, olds, os, oe, n0, FootAll(oldCh), a, d);
    res := a + d;
    assert a + [] + d == res;
    Filled(news, ns, ne, []);
    MatchFill(oldCh, newCh, n0.Keys, news, b, ns, ne, [], res);
    BooksClosed(oldCh, newCh, n0.Keys, b, res);
  }

  /** Both cursors have passed the start of the lists that is the same, but not yet the end. */
  ghost predicate AtTail(b: Books, q: Plan, ns: int, ne: int) {
    ns >= q.c && |b.src| - 1 - ne < q.d
  }

  /** They have passed both, and nothing else. */
  ghost predicate AtMiddle(b: Books, q: Plan, ns: int, ne: int) {
    ns == q.c && |b.src| - 1 - ne == q.d
  }

  /** While the start of the lists is passed, and then the end, both cursors of that end move together, and every new
      node takes the old one beside it. Then the first old node left is taken by the last new one, or the last old one
      by the first new one, if they are the same. */
  ghost predicate Steady(b: Books, q: Plan, indexed: bool, os: int, oe: int, ns: int, ne: int) {
    var n := |b.src|;
    && q.c + q.d <= n && q.c + q.d <= q.m && 0 <= ns <= ne + 1 <= n
    && (q.right || q.left ==> q.c + q.d < n && q.c + q.d < q.m)
    && (ns < q.c ==> os == ns && ne == n - 1 && oe == q.m - 1 && !indexed)
    && (AtTail(b, q, ns, ne) || AtMiddle(b, q, ns, ne) ==>
          os == ns == q.c && q.m - 1 - oe == n - 1 - ne && !indexed)
    && (forall j :: 0 <= j < q.c && j < ns ==> b.src[j] == Some(j))
    && (forall k :: ne < k < n && n - q.d <= k ==> b.src[k] == Some(k + q.m - n))
    && (ns >= q.c && !AtTail(b, q, ns, ne) && !AtMiddle(b, q, ns, ne) ==>
          if q.right then n - 1 - ne > q.d && b.src[n - 1 - q.d] == Some(q.c)
          else ns > q.c && (q.left ==> b.src[q.c] == Some(q.m - 1 - q.d)))
  }

  lemma SteadyStart(oldCh: seq<Mounted>, newCh: seq<VNode>, b: Books)
    requires |b.src| == |newCh|
    ensures Steady(b, PlanOf(VNodesOf(oldCh), newCh), false, 0, |oldCh| - 1, 0, |newCh| - 1)
  {
    hide SameVnode;
  }

  /** What the cursors see while they pass the start or the end, and right after that. */
  lemma SteadyNow(old0: seq<Mounted>, newCh: seq<VNode>, n0: Store, n: Store, p: Id,
                  olds: seq<Option<Mounted>>, news: seq<Option<Mounted>>, b: Books, idx: Option<KeyIndex>,
                  os: int, oe: int, ns: int, ne: int, q: Plan)
    requires Loop(old0, newCh, n0, n, p, olds, news, b, idx, os, oe, ns, ne) && os <= oe && ns <= ne
    requires q == PlanOf(VNodesOf(old0), newCh) && Steady(b, q, idx.Some?, os, oe, ns, ne)
    ensures |olds| == |old0| == |b.taken| && |news| == |newCh| == |b.src|
    ensures 0 <= os <= oe < |olds| && 0 <= ns <= ne < |newCh|
    ensures olds[os].Some? ==> olds[os].value == old0[os]
    ensures olds[oe].Some? ==> olds[oe].value == old0[oe]
    ensures ns < q.c ==> olds[os].Some? && olds[oe].Some? && SameVnode(old0[os].vnode, newCh[ns])
    ensures AtTail(b, q, ns, ne) ==>
              && olds[os].Some? && olds[oe].Some?
              && !SameVnode(old0[os].vnode, newCh[ns]) && SameVnode(old0[oe].vnode, newCh[ne])
    ensures AtMiddle(b, q, ns, ne) ==>
              && olds[os].Some? && olds[oe].Some?
              && !SameVnode(old0[os].vnode, newCh[ns]) && !SameVnode(old0[oe].vnode, newCh[ne])
              && (q.right <==> SameVnode(old0[os].vnode, newCh[ne]))
              && (q.left <==> SameVnode(old0[oe].vnode, newCh[ns]))
  {
    hide SameVnode, Head, Tail, Loop;
    LoopBounds(old0, newCh, n0, n, p, olds, news, b, idx, os, oe, ns, ne);
    var a := VNodesOf(old0);
    assert a[os] == old0[os].vnode && a[oe] == old0[oe].vnode;
    HeadIs(a, newCh);
    TailIs(a[q.c..], newCh[q.c..]);
    if AtTail(b, q, ns, ne) {
      assert SameVnode(a[q.c..][oe - q.c], newCh[q.c..][ne - q.c]);
    }
    if AtMiddle(b, q, ns, ne) {
      assert a[q.c..][oe - q.c] == a[oe] && newCh[q.c..][ne - q.c] == newCh[ne];
    }
  }

  /** The books change at most between the cursors. */
  ghost predicate SrcKept(b: Books, b': Books, ns: int, ne: int) {
    |b'.src| == |b.src| && forall j :: 0 <= j < |b.src| && (j < ns || j > ne) ==> b'.src[j] == b.src[j]
  }

  lemma TookOne(b: Books, i: int, j: int, ns: int, ne: int)
    requires 0 <= i < |b.taken| && 0 <= j < |b.src| && ns <= j <= ne
    ensures SrcKept(b, Took(b, i, j), ns, ne) && Took(b, i, j).src[j] == Some(i)
  {
  }

  lemma SteadySkip(b: Books, q: Plan, indexed: bool, os: int, oe: int, ns: int, ne: int)
    requires Steady(b, q, indexed, os, oe, ns, ne) && q.c <= ns
    requires !AtTail(b, q, ns, ne) && !AtMiddle(b, q, ns, ne)
    ensures Steady(b, q, indexed, os + 1, oe, ns, ne) && Steady(b, q, indexed, os, oe - 1, ns, ne)
  {
  }

  lemma SteadyHead(b: Books, q: Plan, indexed: bool, os: int, oe: int, ns: int, ne: int)
    requires Steady(b, q, indexed, os, oe, ns, ne) && ns <= ne && 0 <= os < |b.taken|
    requires !AtTail(b, q, ns, ne) && !AtMiddle(b, q, ns, ne)
    ensures Steady(Took(b, os, ns), q, indexed, os + 1, oe, ns + 1, ne)
  {
  }

  lemma SteadyTail(b: Books, q: Plan, indexed: bool, os: int, oe: int, ns: int, ne: int)
    requires Steady(b, q, indexed, os, oe, ns, ne) && ns <= ne && 0 <= oe < |b.taken| && q.c <= ns
    requires !AtMiddle(b, q, ns, ne)
    ensures Steady(Took(b, oe, ne), q, indexed, os, oe - 1, ns, ne - 1)
  {
  }

  /** A turn of one of the other arms. */
  lemma SteadyElse(b: Books, b': Books, q: Plan, indexed: bool, os: int, oe: int, ns: int, ne: int,
                   indexed': bool, os': int, oe': int, ns': int, ne': int)
    requires Steady(b, q, indexed, os, oe, ns, ne) && q.c <= ns <= ne && !AtTail(b, q, ns, ne)
    requires SrcKept(b, b', ns, ne) && ((ns' == ns && ne' == ne - 1) || (ns' == ns + 1 && ne' == ne))
    requires AtMiddle(b, q, ns, ne) ==>
               if q.right then ne' == ne - 1 && b'.src[ne] == Some(os)
               else ns' == ns + 1 && (q.left ==> b'.src[ns] == Some(oe))
    ensures Steady(b', q, indexed', os', oe', ns', ne')
  {
  }

  /** A blanked slot at a cursor is passed. */
  lemma StepSkip(old0: seq<Mounted>, newCh: seq<VNode>, n0: Store, n: Store, p: Id,
                  olds: seq<Option<Mounted>>, news: seq<Option<Mounted>>, b: Books, idx: Option<KeyIndex>,
                  os: int, oe: int, ns: int, ne: int, q: Plan)
    requires Loop(old0, newCh, n0, n, p, olds, news, b, idx, os, oe, ns, ne) && os <= oe && ns <= ne
    requires q == PlanOf(VNodesOf(old0), newCh) && Steady(b, q, idx.Some?, os, oe, ns, ne)
    requires olds[os].None? || olds[oe].None?
    ensures Steady(b, q, idx.Some?, os + 1, oe, ns, ne) && Steady(b, q, idx.Some?, os, oe - 1, ns, ne)
  {
    hide Loop, Steady, AtTail, AtMiddle, PlanOf, VNodesOf, SameVnode, Took, SrcKept;
    SteadyNow(old0, newCh, n0, n, p, olds, news, b, idx, os, oe, ns, ne, q);
    SteadySkip(b, q, idx.Some?, os, oe, ns, ne);
  }

  /** The first arm. */
  lemma StepHead(old0: seq<Mounted>, newCh: seq<VNode>, n0: Store, n: Store, p: Id,
                  olds: seq<Option<Mounted>>, news: seq<Option<Mounted>>, b: Books, idx: Option<KeyIndex>,
                  os: int, oe: int, ns: int, ne: int, q: Plan)
    requires Loop(old0, newCh, n0, n, p, olds, news, b, idx, os, oe, ns, ne) && os <= oe && ns <= ne
    requires q == PlanOf(VNodesOf(old0), newCh) && Steady(b, q, idx.Some?, os, oe, ns, ne)
    requires olds[os].Some? && SameVnode(olds[os].value.vnode, newCh[ns])
    ensures os < |b.taken| && ns < |b.src| && Steady(Took(b, os, ns), q, idx.Some?, os + 1, oe, ns + 1, ne)
  {
    hide Loop, Steady, AtTail, AtMiddle, PlanOf, VNodesOf, SameVnode, Took, SrcKept;
    SteadyNow(old0, newCh, n0, n, p, olds, news, b, idx, os, oe, ns, ne, q);
    SteadyHead(b, q, idx.Some?, os, oe, ns, ne);
  }

  /** The second arm. */
  lemma StepTail(old0: seq<Mounted>, newCh: seq<VNode>, n0: Store, n: Store, p: Id,
                  olds: seq<Option<Mounted>>, news: seq<Option<Mounted>>, b: Books, idx: Option<KeyIndex>,
                  os: int, oe: int, ns: int, ne: int, q: Plan)
    requires Loop(old0, newCh, n0, n, p, olds, news, b, idx, os, oe, ns, ne) && os <= oe && ns <= ne
    requires q == PlanOf(VNodesOf(old0), newCh) && Steady(b, q, idx.Some?, os, oe, ns, ne)
    requires olds[os].Some? && olds[oe].Some? && !SameVnode(olds[os].value.vnode, newCh[ns])
    requires SameVnode(olds[oe].value.vnode, newCh[ne])
    ensures oe < |b.taken| && ne < |b.src| && Steady(Took(b, oe, ne), q, idx.Some?, os, oe - 1, ns, ne - 1)
  {
    hide Loop, Steady, AtTail, AtMiddle, PlanOf, VNodesOf, SameVnode, Took, SrcKept;
    SteadyNow(old0, newCh, n0, n, p, olds, news, b, idx, os, oe, ns, ne, q);
    SteadyTail(b, q, idx.Some?, os, oe, ns, ne);
  }

  /** The third arm. */
  lemma StepRight(old0: seq<Mounted>, newCh: seq<VNode>, n0: Store, n: Store, p: Id,
                  olds: seq<Option<Mounted>>, news: seq<Option<Mounted>>, b: Books, idx: Option<KeyIndex>,
                  os: int, oe: int, ns: int, ne: int, q: Plan)
    requires Loop(old0, newCh, n0, n, p, olds, news, b, idx, os, oe, ns, ne) && os <= oe && ns <= ne
    requires q == PlanOf(VNodesOf(old0), newCh) && Steady(b, q, idx.Some?, os, oe, ns, ne)
    requires olds[os].Some? && olds[oe].Some? && !SameVnode(olds[os].value.vnode, newCh[ns])
    requires !SameVnode(olds[oe].value.vnode, newCh[ne]) && SameVnode(olds[os].value.vnode, newCh[ne])
    ensures os < |b.taken| && ne < |b.src| && Steady(Took(b, os, ne), q, idx.Some?, os + 1, oe, ns, ne - 1)
  {
    hide Loop, Steady, AtTail, AtMiddle, PlanOf, VNodesOf, SameVnode, Took, SrcKept;
    SteadyNow(old0, newCh, n0, n, p, olds, news, b, idx, os, oe, ns, ne, q);
    TookOne(b, os, ne, ns, ne);
    SteadyElse(b, Took(b, os, ne), q, idx.Some?, os, oe, ns, ne, idx.Some?, os + 1, oe, ns, ne - 1);
  }

  /** The fourth arm. */
  lemma StepLeft(old0: seq<Mounted>, newCh: seq<VNode>, n0: Store, n: Store, p: Id,
                  olds: seq<Option<Mounted>>, news: seq<Option<Mounted>>, b: Books, idx: Option<KeyIndex>,
                  os: int, oe: int, ns: int, ne: int, q: Plan)
    requires Loop(old0, newCh, n0, n, p, olds, news, b, idx, os, oe, ns, ne) && os <= oe && ns <= ne
    requires q == PlanOf(VNodesOf(old0), newCh) && Steady(b, q, idx.Some?, os, oe, ns, ne)
    requires olds[os].Some? && olds[oe].Some? && !SameVnode(olds[os].value.vnode, newCh[ns])
    requires !SameVnode(olds[oe].value.vnode, newCh[ne]) && !SameVnode(olds[os].value.vnode, newCh[ne])
    requires SameVnode(olds[oe].value.vnode, newCh[ns])
    ensures oe < |b.taken| && ns < |b.src| && Steady(Took(b, oe, ns), q, idx.Some?, os, oe - 1, ns + 1, ne)
  {
    hide Loop, Steady, AtTail, AtMiddle, PlanOf, VNodesOf, SameVnode, Took, SrcKept;
    SteadyNow(old0, newCh, n0, n, p, olds, news, b, idx, os, oe, ns, ne, q);
    TookOne(b, oe, ns, ns, ne);
    SteadyElse(b, Took(b, oe, ns), q, idx.Some?, os, oe, ns, ne, idx.Some?, os, oe - 1, ns + 1, ne);
  }

  /** The last arm, whatever it places. */
  lemma StepPlace(old0: seq<Mounted>, newCh: seq<VNode>, n0: Store, n: Store, p: Id,
                  olds: seq<Option<Mounted>>, news: seq<Option<Mounted>>, b: Books, idx: Option<KeyIndex>,
                  os: int, oe: int, ns: int, ne: int, q: Plan)
    requires Loop(old0, newCh, n0, n, p, olds, news, b, idx, os, oe, ns, ne) && os <= oe && ns <= ne
    requires q == PlanOf(VNodesOf(old0), newCh) && Steady(b, q, idx.Some?, os, oe, ns, ne)
    requires olds[os].Some? && olds[oe].Some? && !SameVnode(olds[os].value.vnode, newCh[ns])
    requires !SameVnode(olds[oe].value.vnode, newCh[ne]) && !SameVnode(olds[os].value.vnode, newCh[ne])
    requires !SameVnode(olds[oe].value.vnode, newCh[ns])
    ensures forall b' :: SrcKept(b, b', ns, ne) ==> Steady(b', q, true, os, oe, ns + 1, ne)
  {
    hide Loop, Steady, AtTail, AtMiddle, PlanOf, VNodesOf, SameVnode, Took, SrcKept;
    SteadyNow(old0, newCh, n0, n, p, olds, news, b, idx, os, oe, ns, ne, q);
    forall b' | SrcKept(b, b', ns, ne) ensures Steady(b', q, true, os, oe, ns + 1, ne) {
      SteadyElse(b, b', q, idx.Some?, os, oe, ns, ne, true, os, oe, ns + 1, ne);
    }
  }

  /** After the loop both ends have been passed. */
  lemma EndsPassed(b: Books, q: Plan, indexed: bool, os: int, oe: int, ns: int, ne: int)
    requires Steady(b, q, indexed, os, oe, ns, ne) && (os > oe || ns > ne)
    ensures q.c + q.d <= |b.src| && q.c + q.d <= q.m && forall j :: 0 <= j < q.c ==> b.src[j] == Some(j)
    ensures forall j :: |b.src| - q.d <= j < |b.src| ==> b.src[j] == Some(j + q.m - |b.src|)
    ensures q.right || q.left ==> q.c + q.d < |b.src| && q.c + q.d < q.m
    ensures q.right ==> b.src[|b.src| - 1 - q.d] == Some(q.c)
    ensures !q.right && q.left ==> b.src[q.c] == Some(q.m - 1 - q.d)
  {
  }

  lemma EndsSourced(oldCh: seq<Mounted>, b: Books, res: seq<Mounted>, q: Plan)
    requires Sourced(oldCh, b, res) && q.c + q.d <= |b.src| && q.c + q.d <= |oldCh| == q.m
    requires q.right || q.left ==> q.c + q.d < |b.src| && q.c + q.d < q.m
    requires forall j :: 0 <= j < q.c ==> b.src[j] == Some(j)
    requires forall j :: |b.src| - q.d <= j < |b.src| ==> b.src[j] == Some(j + |oldCh| - |b.src|)
    requires q.right ==> b.src[|b.src| - 1 - q.d] == Some(q.c)
    requires !q.right && q.left ==> b.src[q.c] == Some(q.m - 1 - q.d)
    ensures EndsStay(oldCh, res, q)
  {
  }

  lemma EndsKept(oldCh: seq<Mounted>, newCh: seq<VNode>, b: Books, res: seq<Mounted>, q: Plan, indexed: bool,
                 os: int, oe: int, ns: int, ne: int)
    requires q == PlanOf(VNodesOf(oldCh), newCh)
    requires Steady(b, q, indexed, os, oe, ns, ne) && (os > oe || ns > ne) && Sourced(oldCh, b, res)
    requires |res| == |newCh| && forall j :: 0 <= j < |res| ==> res[j].vnode == newCh[j]
    ensures KeepsEnds(oldCh, res)
  {
    hide SameVnode, Head, Tail, Steady, EndsStay, Sourced, PlanOf;
    EndsPassed(b, q, indexed, os, oe, ns, ne);
    EndsSourced(oldCh, b, res, q);
    assert VNodesOf(res) == newCh;
  }

  /** After the loop: what is left of the new list is created, or what is left of the old one removed. */
  method FinishRest(doc: Document, p: Id, ghost oldCh: seq<Mounted>, newCh: seq<VNode>, ghost n0: Store,
                    olds: seq<Option<Mounted>>, news: seq<Option<Mounted>>, ghost b: Books, ghost idx: Option<KeyIndex>,
                    os: int, oe: int, ns: int, ne: int) returns (res: seq<Mounted>)
    requires doc.Valid() && Lists(oldCh, newCh) && OldNodes(oldCh, n0.Keys) && (os > oe || ns > ne)
    requires Loop(oldCh, newCh, n0, doc.nodes, p, olds, news, b, idx, os, oe, ns, ne)
    modifies doc
    ensures doc.Valid() && Progress(n0, doc.nodes, p, FootAll(oldCh), res)
    ensures |res| == |newCh| && forall j :: 0 <= j < |res| ==> res[j].vnode == newCh[j]
    ensures Reused(oldCh, newCh, res, n0.Keys) && Discarded(doc.nodes, oldCh, res) && Sourced(oldCh, b, res)
    ensures os <= oe + 1 && ns <= ne + 1
    decreases newCh, 1
  {
    hide Grove, Shows, Linked, AllShow, SameVnode, Matched, Progress, WellFormed, Patchable, Live, UniqueKeys, Reused,
         Indexed, Discarded, Loop, Range, Whole, OldNodes, Sourced, Lists, Elms, Distinct, FootAll;
    LoopBounds(oldCh, newCh, n0, doc.nodes, p, olds, news, b, idx, os, oe, ns, ne);
    if os > oe {
      var ref := if ne + 1 < |newCh| then Some(news[ne + 1].value.elm) else None;
      res := AppendRest(doc, p, ref, oldCh, newCh, n0, olds, news, b, idx, os, oe, ns, ne);
    } else {
      res := DropRest(doc, p, oldCh, newCh, n0, olds, news, b, idx, os, oe, ns, ne);
    }
  }

  /** `updateChildren`: p, which showed the old list, shows the new one; elements are reused as `Reused` says, and
      the loop takes at most as many turns as there are nodes in both lists. */
  method UpdateChildren(doc: Document, p: Id, oldCh: seq<Mounted>, newCh: seq<VNode>)
    returns (res: seq<Mounted>, ghost turns: nat)
    requires doc.Valid() && Lists(oldCh, newCh) && Grove(doc.nodes, p, oldCh)
    modifies doc
    ensures doc.Valid() && Progress(old(doc.nodes), doc.nodes, p, FootAll(oldCh), res)
    ensures |res| == |newCh| && forall j :: 0 <= j < |res| ==> res[j].vnode == newCh[j]
    ensures p in doc.nodes && doc.nodes[p].children == Elms(res) && Distinct(Elms(res))
    ensures forall j :: 0 <= j < |res| ==> (Denotes(doc.nodes, res[j].elm, Build(newCh[j])) <==> Whole(res[j]))
    ensures Reused(oldCh, newCh, res, old(doc.nodes).Keys) && KeepsEnds(oldCh, res)
    ensures Discarded(doc.nodes, oldCh, res)
    ensures turns <= |oldCh| + |newCh|
    decreases newCh, 2
  {
    hide Grove, Shows, Linked, AllShow, SameVnode, Matched, Progress, WellFormed, Patchable, Live, UniqueKeys, Reused,
         Indexed, Discarded, Loop, Range, Whole, OldNodes, Took, SrcKept, Sourced, Steady, KeepsEnds, PlanOf,
         AtTail, AtMiddle, VNodesOf, Lists, Untaken, Build, Denotes, FootAll, Elms, Distinct, Somes, Blank;
    ghost var n0 := doc.nodes;
    var os, oe, ns, ne := 0, |oldCh| - 1, 0, |newCh| - 1;
    var olds, news := Somes(oldCh), Blank(|newCh|);
    var oldStart, oldEnd := At(olds, os), At(olds, oe);
    var idx: Option<KeyIndex> := None;
    ghost var b := LoopStart(oldCh, newCh, n0, p);
    GroveElms(n0, p, oldCh);
    OldOnes(oldCh, n0.Keys);
    turns := 0;
    ghost var q := PlanOf(VNodesOf(oldCh), newCh);
    LoopBounds(oldCh, newCh, n0, n0, p, olds, news, b, None, os, oe, ns, ne);
    SteadyStart(oldCh, newCh, b);
    while os <= oe && ns <= ne
      invariant doc.Valid() && Loop(oldCh, newCh, n0, doc.nodes, p, olds, news, b, idx, os, oe, ns, ne)
      invariant oldStart == At(olds, os) && oldEnd == At(olds, oe)
      invariant Steady(b, q, idx.Some?, os, oe, ns, ne)
      invariant turns + (oe - os + 1) + (ne - ns + 1) <= |oldCh| + |newCh|
      decreases (oe - os + 1) + (ne - ns + 1)
    {
      LoopBounds(oldCh, newCh, n0, doc.nodes, p, olds, news, b, idx, os, oe, ns, ne);
      turns := turns + 1;
      if oldStart.None? {
        Skip(oldCh, newCh, n0, doc.nodes, p, olds, news, b, idx, os, oe, ns, ne);
        StepSkip(oldCh, newCh, n0, doc.nodes, p, olds, news, b, idx, os, oe, ns, ne, q);
        os := os + 1;
        oldStart := At(olds, os);
      } else if oldEnd.None? {
        Skip(oldCh, newCh, n0, doc.nodes, p, olds, news, b, idx, os, oe, ns, ne);
        StepSkip(oldCh, newCh, n0, doc.nodes, p, olds, news, b, idx, os, oe, ns, ne, q);
        oe := oe - 1;
        oldEnd := At(olds, oe);
      } else if SameVnode(oldStart.value.vnode, newCh[ns]) {
        StepHead(oldCh, newCh, n0, doc.nodes, p, olds, news, b, idx, os, oe, ns, ne, q);
        var r := SameStart(doc, p, oldCh, newCh, n0, olds, news, b, idx, os, oe, ns, ne);
        news, b := news[ns := Some(r)], Took(b, os, ns);
        os, ns := os + 1, ns + 1;
        oldStart := At(olds, os);
      } else if SameVnode(oldEnd.value.vnode, newCh[ne]) {
        StepTail(oldCh, newCh, n0, doc.nodes, p, olds, news, b, idx, os, oe, ns, ne, q);
        var r := SameEnd(doc, p, oldCh, newCh, n0, olds, news, b, idx, os, oe, ns, ne);
        news, b := news[ne := Some(r)], Took(b, oe, ne);
        oe, ne := oe - 1, ne - 1;
        oldEnd := At(olds, oe);
      } else if SameVnode(oldStart.value.vnode, newCh[ne]) {
        StepRight(oldCh, newCh, n0, doc.nodes, p, olds, news, b, idx, os, oe, ns, ne, q);
        var r := MovedRight(doc, p, oldCh, newCh, n0, olds, news, b, idx, os, oe, ns, ne);
        news, b := news[ne := Some(r)], Took(b, os, ne);
        os, ne := os + 1, ne - 1;
        oldStart := At(olds, os);
      } else if SameVnode(oldEnd.value.vnode, newCh[ns]) {
        StepLeft(oldCh, newCh, n0, doc.nodes, p, olds, news, b, idx, os, oe, ns, ne, q);
        var r := MovedLeft(doc, p, oldCh, newCh, n0, olds, news, b, idx, os, oe, ns, ne);
        news, b := news[ns := Some(r)], Took(b, oe, ns);
        oe, ns := oe - 1, ns + 1;
        oldEnd := At(olds, oe);
      } else {
        StepPlace(oldCh, newCh, n0, doc.nodes, p, olds, news, b, idx, os, oe, ns, ne, q);
        var r;
        r, olds, b, idx := PlaceStart(doc, p, oldCh, newCh, n0, olds, news, b, idx, os, oe, ns, ne);
        news := news[ns := Some(r)];
        ns := ns + 1;
      }
    }
    res := FinishRest(doc, p, oldCh, newCh, n0, olds, news, b, idx, os, oe, ns, ne);
    GroveDenotes(doc.nodes, p, oldCh, n0, res, newCh);
    EndsKept(oldCh, newCh, b, res, q, idx.Some?, os, oe, ns, ne);
  }

  /** A search without success, with both ends different, leaves no same node between the cursors. */
  lemma NotFound(v: VNode, olds: seq<Option<Mounted>>, os: int, oe: int, found: Option<nat>)
    requires 0 <= os <= oe < |olds| && olds[oe].Some? && !SameVnode(olds[oe].value.vnode, v)
    requires found.Some? ==> found.value < oe
    requires forall i :: os <= i < (if found.Some? then found.value else oe) && olds[i].Some? ==>
               !SameVnode(v, olds[i].value.vnode)
    ensures found.None? ==> NoneBetween(olds, os, oe, v)
    ensures found.Some? && found.value < |olds| && olds[found.value].Some? ==>
              (SameVnode(v, olds[found.value].value.vnode) <==> SameVnode(olds[found.value].value.vnode, v))
  {
  }

  /** The keyed or searched arm: the next new node is looked up among the old ones left, by an index built once. */
  method PlaceStart(doc: Document, p: Id, ghost old0: seq<Mounted>, newCh: seq<VNode>, ghost n0: Store,
                    olds: seq<Option<Mounted>>, news: seq<Option<Mounted>>, ghost b: Books, idx0: Option<KeyIndex>,
                    os: int, oe: int, ns: int, ne: int)
    returns (r: Mounted, olds': seq<Option<Mounted>>, ghost b': Books, idx: Option<KeyIndex>)
    requires doc.Valid() && Lists(old0, newCh)
    requires Loop(old0, newCh, n0, doc.nodes, p, olds, news, b, idx0, os, oe, ns, ne)
    requires os <= oe && ns <= ne && olds[os].Some? && olds[oe].Some?
    requires !SameVnode(olds[os].value.vnode, newCh[ns]) && !SameVnode(olds[oe].value.vnode, newCh[ns])
    modifies doc
    ensures doc.Valid()
    ensures Loop(old0, newCh, n0, doc.nodes, p, olds', news[ns := Some(r)], b', idx, os, oe, ns + 1, ne)
    ensures SrcKept(b, b', ns, ne) && idx.Some?
    ensures At(olds', os) == At(olds, os) && At(olds', oe) == At(olds, oe)
    decreases newCh, 1
  {
    hide Grove, Shows, Linked, AllShow, Matched, Progress, WellFormed, Patchable, Live, UniqueKeys, Range, Indexed;
    LoopBounds(old0, newCh, n0, doc.nodes, p, olds, news, b, idx0, os, oe, ns, ne);
    idx := idx0;
    if idx.None? {
      var m := CreateKeyToOldIdx(olds, os, oe);
      IndexBuilt(old0, newCh, n0, doc.nodes, p, olds, news, b, os, oe, ns, ne, m);
      idx := Some(m);
    }
    LoopBounds(old0, newCh, n0, doc.nodes, p, olds, news, b, idx, os, oe, ns, ne);
    var v := newCh[ns];
    var found: Option<nat> := None;
    if v.key.Some? {
      if v.key.value in idx.value {
        LookUp(old0, newCh, n0, doc.nodes, p, olds, news, b, idx.value, os, oe, ns, ne);
        found := Some(idx.value[v.key.value]);
      }
    } else {
      found := FindIdxInOld(v, olds, os, oe);
      NotFound(v, olds, os, oe, found);
    }
    if found.None? {
      r := CreatedNew(doc, p, old0, newCh, n0, olds, news, b, idx, os, oe, ns, ne);
      olds', b' := olds, b;
    } else {
      var i := found.value;
      if SameVnode(olds[i].value.vnode, v) {
        r, olds' := MovedFromMiddle(doc, p, old0, newCh, n0, olds, news, b, idx, os, oe, ns, ne, i);
        b' := Took(b, i, ns);
      } else {
        r := CreatedNew(doc, p, old0, newCh, n0, olds, news, b, idx, os, oe, ns, ne);
        olds', b' := olds, b;
      }
    }
  }

  // ----- patching one node

  lemma KidsWellFormed(m: Mounted, n: Store)
    requires Shows(n, m) && WellFormed(m.vnode)
    ensures Grove(n, m.elm, m.kids) && m.elm in n && m.elm in Foot(m) && Foot(m) == {m.elm} + FootAll(m.kids)
    ensures Foot(m) <= n.Keys && RootShows(n[m.elm], m.vnode)
    ensures forall i :: 0 <= i < |m.kids| ==> WellFormed(m.kids[i].vnode)
    ensures KidsFit(m)
  {
    FootNode(m);
    ShowsInStore(n, m);
  }

  lemma NewLists(m: Mounted, n: Store, v: VNode)
    requires Shows(n, m) && WellFormed(m.vnode) && WellFormed(v) && Patchable(v) && v.children.Children?
    ensures Lists(m.kids, v.children.list)
  {
    KidsWellFormed(m, n);
  }

  /** The node of m, its children now ms, shows v. */
  lemma ShowsAgain(n: Store, v: VNode, elm: Id, ms: seq<Mounted>)
    requires Grove(n, elm, ms) && RootShows(n[elm], v) && KidsFit(Mounted(v, elm, ms)) && WellFormed(v)
    ensures Shows(n, Mounted(v, elm, ms)) && Denotes(n, elm, Seen(Mounted(v, elm, ms)))
    ensures Denotes(n, elm, Build(v)) <==> Whole(Mounted(v, elm, ms))
    ensures Foot(Mounted(v, elm, ms)) == {elm} + FootAll(ms)
  {
    FootNode(Mounted(v, elm, ms));
    DenotesBuilt(n, Mounted(v, elm, ms));
  }

  lemma FollowsKids(m: Mounted, r: Mounted)
    requires KeepsText(Some(m), r) && KeepsElements(m.kids, r.kids)
    requires BothLists(m.vnode, r.vnode) ==> ReusesAll(m.kids, r.kids) && KeepsEnds(m.kids, r.kids)
    requires forall j :: 0 <= j < |r.kids| ==> Follows(Bearer(m.kids, r.kids[j].elm), r.kids[j])
    ensures Follows(Some(m), r)
  {
    hide KeepsElements, ReusesAll, KeepsEnds, KeepsText;
  }

  /** Children that were all created. */
  lemma FollowsCreated(n0: Store, m: Mounted, v: VNode, kids: seq<Mounted>)
    requires Grove(n0, m.elm, m.kids) && FootAll(kids) !! n0.Keys && !CarriesEmpty(v)
    requires forall i :: 0 <= i < |m.kids| ==> m.kids[i].vnode.key.None?
    requires !BothLists(m.vnode, v) && forall j :: 0 <= j < |kids| ==> Whole(kids[j])
    ensures Follows(Some(m), Mounted(v, m.elm, kids))
  {
    hide Whole, Follows, Bearer;
    GroveElms(n0, m.elm, m.kids);
    FreshElms(kids, n0.Keys);
    forall j | 0 <= j < |kids|
      ensures Follows(Bearer(m.kids, kids[j].elm), kids[j]) && Bearer(m.kids, kids[j].elm) == None
    {
      BearerNone(m.kids, kids[j].elm);
      FollowsNone(kids[j]);
    }
    FollowsKids(m, Mounted(v, m.elm, kids));
  }

  /** What an update of a child list says of its elements. */
  lemma ReusedKeeps(oldCh: seq<Mounted>, newCh: seq<VNode>, res: seq<Mounted>, before: set<Id>)
    requires |res| == |newCh| && Reused(oldCh, newCh, res, before) && OldNodes(oldCh, before)
    requires forall j :: 0 <= j < |res| ==> res[j].vnode == newCh[j]
    ensures KeepsElements(oldCh, res) && ReusesAll(oldCh, res)
    ensures forall j :: 0 <= j < |res| ==> Follows(Bearer(oldCh, res[j].elm), res[j])
  {
    hide SameVnode, Follows;
    forall j | 0 <= j < |res| && Bearer(oldCh, res[j].elm).Some?
      ensures SameVnode(Bearer(oldCh, res[j].elm).value.vnode, res[j].vnode)
    {
      if res[j].elm !in Elms(oldCh) {
        BearerNone(oldCh, res[j].elm);
      } else {
        var k :| 0 <= k < |oldCh| && oldCh[k].elm == res[j].elm;
        var i :| 0 <= i < |oldCh| && oldCh[i].elm == res[j].elm && SameVnode(oldCh[i].vnode, newCh[j]);
        BearerAt(oldCh, i);
      }
    }
    forall j | 0 <= j < |res| && Bearer(oldCh, res[j].elm).None? ensures res[j].elm !in before {
      if res[j].elm in before {
        var i :| 0 <= i < |oldCh| && oldCh[i].elm == res[j].elm;
        BearerAt(oldCh, i);
      }
    }
    forall i, j | 0 <= i < |oldCh| && 0 <= j < |res| && KeyedPair(oldCh[i].vnode, res[j].vnode) && UniqueOldKeys(oldCh)
      ensures Bearer(oldCh, res[j].elm) == Some(oldCh[i])
    {
      BearerAt(oldCh, i);
    }
  }

  /** Children that were left alone. */
  lemma FollowsKept(n0: Store, m: Mounted, v: VNode)
    requires Grove(n0, m.elm, m.kids) && (CarriesEmpty(v) ==> m.vnode.text == Some(""))
    ensures Follows(Some(m), Mounted(v, m.elm, m.kids))
  {
    hide KeepsElements, ReusesAll, KeepsEnds;
    GroveElms(n0, m.elm, m.kids);
    KeptElements(m.kids);
    assert AllShow(n0, m.kids);
    forall j | 0 <= j < |m.kids| ensures Follows(Bearer(m.kids, m.kids[j].elm), m.kids[j]) {
      BearerAt(m.kids, j);
      FollowsSelf(n0, m.kids[j]);
    }
  }

  lemma WholeLeaf(m: Mounted)
    requires m.kids == [] && !CarriesEmpty(m.vnode)
    ensures Whole(m)
  {
  }

  /** A single text node, or nothing. */
  lemma FollowsText(m: Mounted, v: VNode, text: string, kids: seq<Mounted>)
    requires kids == [] || (|kids| == 1 && kids[0].vnode == TextVNode(text) && kids[0].kids == [])
    requires CarriesEmpty(v) ==> m.vnode.text != Some("") && kids == []
    requires !BothLists(m.vnode, v) && (kids != [] ==> kids[0].elm !in Elms(m.kids))
    ensures Follows(Some(m), Mounted(v, m.elm, kids))
  {
    hide Bearer, SameVnode, UniqueOldKeys, Follows, Whole, ReusesAll, KeepsEnds, Elms;
    if kids != [] {
      BearerNone(m.kids, kids[0].elm);
      WholeLeaf(kids[0]);
      FollowsNone(kids[0]);
    }
    FollowsKids(m, Mounted(v, m.elm, kids));
  }

  /** `setTextContent` on an element: its children are now the created text node, if any. */
  lemma TextShown(n: Store, n': Store, elm: Id, ms: seq<Mounted>, text: string, created: seq<Id>)
    requires Linked(n) && Grove(n, elm, ms)
    requires text == "" ==> created == [] && n' == Emptied(n, elm)
    requires text != "" ==>
               && |created| == 1 && created[0] !in n
               && n' == Emptied(n, elm)[created[0] := DomNode(TextNode, None, text, [], Some(elm))]
                                       [elm := n[elm].(children := created)]
    ensures text == "" ==> Grove(n', elm, [])
    ensures text != "" ==> Grove(n', elm, [Mounted(TextVNode(text), created[0], [])])
                           && FootAll([Mounted(TextVNode(text), created[0], [])]) == {created[0]}
    ensures Kept(n, n', {elm} + FootAll(ms)) && n'[elm] == n[elm].(children := created)
  {
    assert LinkedAt(n, elm);
    forall c | c in n[elm].children ensures c in FootAll(ms) {
      var i :| 0 <= i < |ms| && ms[i].elm == c;
      assert c in Foot(ms[i]);
    }
    if text == "" {
      EmptyGrove(n', elm);
    } else {
      TextKid(n', elm, created[0], text);
      FootOne(Mounted(TextVNode(text), created[0], []));
    }
  }

  /** `addVnodes(p, null, vnodes, 0, vnodes.length - 1)` on an element without children. */
  method FillEmpty(doc: Document, p: Id, vnodes: seq<VNode>) returns (ms: seq<Mounted>)
    requires doc.Valid() && Grove(doc.nodes, p, [])
    requires forall i :: 0 <= i < |vnodes| ==> WellFormed(vnodes[i])
    modifies doc
    ensures doc.Valid() && Grove(doc.nodes, p, ms)
    ensures |ms| == |vnodes| && forall i :: 0 <= i < |ms| ==> ms[i].vnode == vnodes[i] && Whole(ms[i])
    ensures FootAll(ms) !! old(doc.nodes).Keys && Edited(old(doc.nodes), doc.nodes, p, {})
    ensures FootAll(ms) <= doc.nodes.Keys - old(doc.nodes).Keys
    decreases vnodes, 1
  {
    hide Shows, Linked, AllShow;
    EmptyGrove(doc.nodes, p);
    ms := AddVnodes(doc, p, None, vnodes, 0, |vnodes| - 1, [], []);
    assert [] + ms + [] == ms;
    GroveFoot(doc.nodes, p, ms);
  }

  /** `removeVnodes(p, oldCh, 0, oldCh.length - 1)`. */
  method DropAll(doc: Document, p: Id, ms: seq<Mounted>)
    requires doc.Valid() && Grove(doc.nodes, p, ms)
    modifies doc
    ensures doc.Valid() && Grove(doc.nodes, p, [])
    ensures Edited(old(doc.nodes), doc.nodes, p, FootAll(ms))
    ensures forall k :: 0 <= k < |ms| ==> ms[k].elm in doc.nodes && doc.nodes[ms[k].elm].parent == None
  {
    hide Shows, Linked, AllShow;
    LiveSomes(ms);
    assert [] + ms + [] == ms && Somes(ms)[0..|ms|] == Somes(ms);
    RemoveVnodes(doc, p, Somes(ms), 0, |ms| - 1, doc.nodes, FootAll(ms), [], []);
    var none: seq<Mounted> := [];
    assert none + none == none;
    assert forall k :: 0 <= k < |ms| ==> Somes(ms)[k] == Some(ms[k]);
  }

  /** The second half of `patchVnode`: the text and the children. */
  method PatchKids(doc: Document, m: Mounted, v: VNode, shared: bool) returns (kids: seq<Mounted>)
    requires doc.Valid() && Grove(doc.nodes, m.elm, m.kids) && m.elm in doc.nodes
    requires WellFormed(m.vnode) && WellFormed(v) && Patchable(v) && m.vnode.tag == v.tag
    requires v.children.Children? ==> Lists(m.kids, v.children.list)
    requires KidsFit(m)
    requires m.vnode.tag.Some? <==> doc.nodes[m.elm].kind.ElementNode?
    requires m.vnode.tag.None? ==> Some(doc.nodes[m.elm].text) == m.vnode.text
    modifies doc
    ensures doc.Valid() && Grove(doc.nodes, m.elm, kids)
    ensures KidsFit(Mounted(v, m.elm, kids)) && Follows(Some(m), Mounted(v, m.elm, kids))
    ensures Kept(old(doc.nodes), doc.nodes, {m.elm} + FootAll(m.kids))
    ensures FootAll(kids) <= FootAll(m.kids) + (doc.nodes.Keys - old(doc.nodes).Keys)
    ensures m.elm in doc.nodes
            && doc.nodes[m.elm].(children := [], text := "") == old(doc.nodes)[m.elm].(children := [], text := "")
    ensures v.tag.None? ==> Some(doc.nodes[m.elm].text) == v.text
    decreases v, 0
  {
    hide Grove, Shows, Linked, AllShow, Lists, Foot, Follows, Whole, Reused, KeepsElements, ReusesAll, KeepsEnds,
         OldNodes;
    var elm := m.elm;
    var oldCh, ch := m.vnode.children, v.children;
    ghost var n0 := doc.nodes;
    GroveFoot(n0, elm, m.kids);
    GroveElms(n0, elm, m.kids);
    kids := m.kids;
    if v.text.None? {
      if oldCh.Children? && ch.Children? {
        if oldCh != ch || !shared {
          ghost var turns;
          kids, turns := UpdateChildren(doc, elm, m.kids, ch.list);
          OldOnes(m.kids, n0.Keys);
          ReusedKeeps(m.kids, ch.list, kids, n0.Keys);
          FollowsKids(m, Mounted(v, elm, kids));
        } else {
          FollowsKept(n0, m, v);
        }
      } else if ch.Children? {
        kids := [];
        if m.vnode.text.Some? {
          var created := doc.SetTextContent(elm, "");
          TextShown(n0, doc.nodes, elm, m.kids, "", created);
        }
        kids := FillEmpty(doc, elm, ch.list);
        FollowsCreated(n0, m, v, kids);
      } else if oldCh.Children? {
        DropAll(doc, elm, m.kids);
        kids := [];
        FollowsText(m, v, "", kids);
      } else if m.vnode.text.Some? {
        var created := doc.SetTextContent(elm, "");
        TextShown(n0, doc.nodes, elm, m.kids, "", created);
        kids := [];
        FollowsText(m, v, "", kids);
      } else {
        FollowsKept(n0, m, v);
      }
    } else if m.vnode.text != v.text {
      var created := doc.SetTextContent(elm, v.text.value);
      if v.tag.Some? {
        TextShown(n0, doc.nodes, elm, m.kids, v.text.value, created);
        kids := if created == [] then [] else [Mounted(TextVNode(v.text.value), created[0], [])];
      } else {
        GroveFrame(n0, doc.nodes, elm, m.kids);
      }
      FollowsText(m, v, v.text.value, kids);
    } else {
      FollowsKept(n0, m, v);
    }
  }

  /** `patchVnode`: the element of m comes to show v, and nothing outside m changes. It then denotes the tree that
      rendering v from scratch yields, exactly when no empty text was lost; which are lost, Follows says from the old
      node and from where elements came from. */
  method PatchVnode(doc: Document, m: Mounted, v: VNode) returns (r: Mounted)
    requires doc.Valid() && Shows(doc.nodes, m)
    requires WellFormed(m.vnode) && WellFormed(v) && Patchable(v) && SameVnode(m.vnode, v)
    modifies doc
    ensures doc.Valid()
    ensures r.vnode == v && r.elm == m.elm && Shows(doc.nodes, r)
    ensures Denotes(doc.nodes, m.elm, Seen(r)) && Follows(Some(m), r)
    ensures Denotes(doc.nodes, m.elm, Build(v)) <==> Whole(r)
    ensures Kept(old(doc.nodes), doc.nodes, Foot(m)) && Foot(r) <= Foot(m) + (doc.nodes.Keys - old(doc.nodes).Keys)
    ensures m.elm in old(doc.nodes) && doc.nodes[m.elm].parent == old(doc.nodes)[m.elm].parent
    decreases v, 1
  {
    hide Grove, Shows, Linked, AllShow, Patchable, Lists, Foot, FootAll, WellFormed, KidVNodes, Build, Follows, Whole,
         Seen;
    KidsWellFormed(m, doc.nodes);
    // whether v is the very node object that is already mounted, and whether only its child list is shared
    var shared: bool := *;
    if m.vnode == v && shared {
      DenotesBuilt(doc.nodes, m);
      FollowsSelf(doc.nodes, m);
      return m;
    }
    ghost var n0 := doc.nodes;
    if v.data.Some? && v.tag.Some? {
      doc.SetData(m.elm, v.data);
      GroveFoot(n0, m.elm, m.kids);
      GroveFrame(n0, doc.nodes, m.elm, m.kids);
    }
    if v.children.Children? {
      NewLists(m, n0, v);
    }
    shared := *;
    var kids := PatchKids(doc, m, v, shared);
    ShowsAgain(doc.nodes, v, m.elm, kids);
    r := Mounted(v, m.elm, kids);
  }

  /** Without empty texts on elements, patching always is rebuilding. */
  lemma PatchedIsBuilt(n: Store, r: Mounted)
    requires Shows(n, r) && WellFormed(r.vnode) && NoEmptyText(r.vnode)
    ensures Denotes(n, r.elm, Build(r.vnode))
  {
    NothingToLose(n, r);
    DenotesBuilt(n, r);
  }

  /** An element with a text is patched to what building it yields if and only if the text is not empty, or was
      empty already and had its node. */
  lemma TextIsBuilt(n: Store, m: Mounted, r: Mounted)
    requires Shows(n, r) && WellFormed(r.vnode) && r.vnode.tag.Some? && r.vnode.text.Some? && Follows(Some(m), r)
    ensures Denotes(n, r.elm, Build(r.vnode)) <==>
            r.vnode.text.value != "" || (m.vnode.text == Some("") && m.kids != [])
  {
    DenotesBuilt(n, r);
    if r.kids != [] {
      assert AllShow(n, r.kids) && Shows(n, r.kids[0]);
      assert |r.kids| == 1 && r.kids[0].vnode == TextVNode(r.vnode.text.value);
    }
  }

  /** With keyed child lists, patching is rebuilding if and only if no element gets an empty text in place of another
      text or of none. */
  lemma PatchedExactly(n0: Store, o: Option<Mounted>, n: Store, r: Mounted)
    requires o.Some? ==> Shows(n0, o.value) && WellFormed(o.value.vnode) && Patchable(o.value.vnode)
    requires Shows(n, r) && WellFormed(r.vnode) && Keyed(r.vnode) && Follows(o, r)
    ensures Denotes(n, r.elm, Build(r.vnode)) <==> Lossless(o, r.vnode)
  {
    WholeExactly(n0, o, n, r);
    DenotesBuilt(n, r);
  }

  function Paragraph(text: string): VNode {
    VNode(None, Some("p"), None, NoChildren, Some(text), false)
  }

  /** A paragraph whose text "x" becomes empty ends up without the text node that building it yields. */
  method EmptyTextIsLost(doc: Document, m: Mounted) returns (r: Mounted)
    requires doc.Valid() && Shows(doc.nodes, m) && m.vnode == Paragraph("x")
    modifies doc
    ensures doc.Valid() && r.vnode == Paragraph("") && Shows(doc.nodes, r) && r.elm == m.elm
    ensures !Denotes(doc.nodes, r.elm, Build(Paragraph("")))
  {
    hide Shows, Denotes, Build, Follows, Whole, Foot;
    r := PatchVnode(doc, m, Paragraph(""));
    TextIsBuilt(doc.nodes, m, r);
  }

  // ----- patching the root

  lemma {:induction false} ChildInside(n: Store, m: Mounted, x: Id, c: Id)
    requires Shows(n, m) && x in Foot(m) && x in n && c in n[x].children
    ensures c in Foot(m)
    decreases m
  {
    if x == m.elm {
      var i :| 0 <= i < |m.kids| && m.kids[i].elm == c;
      assert c in Foot(m.kids[i]);
    } else {
      var i :| 0 <= i < |m.kids| && x in Foot(m.kids[i]);
      assert AllShow(n, m.kids);
      ChildInside(n, m.kids[i], x, c);
    }
  }

  /** The parent of a mounted element is not in what is mounted. */
  lemma ParentOutside(n: Store, m: Mounted)
    requires Linked(n) && Shows(n, m) && m.elm in n
    ensures n[m.elm].parent.Some? ==> n[m.elm].parent.value !in Foot(m)
  {
    var parent := n[m.elm].parent;
    if parent.Some? {
      assert LinkedAt(n, m.elm) && LinkedAt(n, parent.value);
      assert AllShow(n, m.kids);
      forall i | 0 <= i < |m.kids| ensures parent.value !in Foot(m.kids[i]) {
        if parent.value in Foot(m.kids[i]) {
          ChildInside(n, m.kids[i], parent.value, m.elm);
        }
      }
    }
  }

  lemma RootFoot(n: Store, m: Mounted)
    requires Shows(n, m)
    ensures m.elm in Foot(m) && Foot(m) <= n.Keys
  {
    ShowsInStore(n, m);
  }

  /** The siblings before and after a child x of p. */
  lemma Around(doc: Document, x: Id, p: Id) returns (a: seq<Id>, b: seq<Id>)
    requires doc.Valid() && x in doc.nodes && doc.nodes[x].parent == Some(p)
    ensures p in doc.nodes && p != x && doc.nodes[p].children == a + [x] + b && Distinct(a + [x] + b) && x !in a
    ensures IndexOf(a + [x] + b, x) == |a|
    ensures doc.NextSibling(x) == if b == [] then None else Some(b[0])
    ensures Inserts(doc.nodes, Some(p), doc.NextSibling(x))
    ensures doc.NextSibling(x).Some? ==> doc.NextSibling(x).value in doc.nodes
  {
    assert LinkedAt(doc.nodes, x) && LinkedAt(doc.nodes, p);
    var s := doc.nodes[p].children;
    var i := IndexOf(s, x);
    a, b := s[..i], s[i + 1..];
    assert s == a + [x] + b;
  }

  lemma Regroup(q: seq<Id>, b: seq<Id>, x: Id)
    requires b != [] && Distinct(q + b)
    ensures b[0] !in q && b[0] in q + b
    ensures q + b == q + [b[0]] + b[1..]
    ensures q + [x] + [b[0]] + b[1..] == q + ([x] + b)
  {
    assert (q + b)[|q|] == b[0] && forall i :: 0 <= i < |q| ==> (q + b)[i] == q[i];
    assert b == [b[0]] + b[1..];
  }

  /** Placing x before the node that follows e is placing it right behind e. */
  lemma PutAfter(a: seq<Id>, e: Id, b: seq<Id>, x: Id, ref: Option<Id>)
    requires Distinct(a + [e] + b) && ref == (if b == [] then None else Some(b[0]))
    ensures ref.Some? ==> ref.value in a + [e] + b
    ensures PutBefore(a + [e] + b, x, ref) == a + [e] + ([x] + b)
  {
    hide PutBefore, Distinct;
    if b != [] {
      Regroup(a + [e], b, x);
      PutBeforeMiddle(a + [e], b[0], b[1..], x);
    } else {
      PutLast(a + [e], b, x);
    }
  }

  /** Detaching an old node does not touch a subtree of new nodes. */
  lemma ShowsKept(n0: Store, n1: Store, n2: Store, r: Mounted, e: Id, p: Id)
    requires Shows(n1, r) && Foot(r) !! n0.Keys && e in n0 && p in n0
    requires forall x :: x in n1 && x != e && x != p ==> x in n2 && n2[x] == n1[x]
    ensures Shows(n2, r)
  {
    ShowsFrame(n1, n2, r);
  }

  method ReplaceRoot(doc: Document, m: Mounted, v: VNode, p: Id, ref: Option<Id>) returns (r: Mounted)
    requires doc.Valid() && WellFormed(v) && m.elm in doc.nodes && doc.nodes[m.elm].parent == Some(p)
    requires ref == doc.NextSibling(m.elm)
    modifies doc
    ensures doc.Valid() && r.vnode == v && Shows(doc.nodes, r) && Denotes(doc.nodes, r.elm, Build(v)) && Whole(r)
    ensures r.elm in doc.nodes && r.elm !in old(doc.nodes) && doc.nodes[r.elm].parent == Some(p)
    ensures m.elm in doc.nodes && doc.nodes[m.elm].parent == None
    ensures p in old(doc.nodes) && m.elm in old(doc.nodes)[p].children
    ensures Kept(old(doc.nodes), doc.nodes, {m.elm, p})
    ensures doc.nodes[p].children == old(doc.nodes)[p].children[IndexOf(old(doc.nodes)[p].children, m.elm) := r.elm]
  {
    hide Grove, Shows, Linked, AllShow, WellFormed, Build, Foot, Whole, Seen, IndexOf, PutBefore, Detached;
    ghost var n0 := doc.nodes;
    ghost var a, b := Around(doc, m.elm, p);
    r := CreateElm(doc, v, Some(p), ref);
    ghost var n1 := doc.nodes;
    RootFoot(n1, r);
    PutAfter(a, m.elm, b, r.elm, ref);
    DetachedChild(n1, p, a, m.elm, [r.elm] + b);
    doc.RemoveChild(p, m.elm);
    assert (a + [m.elm] + b)[|a| := r.elm] == a + ([r.elm] + b);
    ShowsKept(n0, n1, doc.nodes, r, m.elm, p);
    DenotesBuilt(doc.nodes, r);
  }

  /** Whatever was mounted before, after `patch` the document shows the tree that building v from scratch
      yields, at the place where the old element was. */
  method PatchRoot(doc: Document, m: Mounted, v: VNode) returns (r: Mounted)
    requires doc.Valid() && Shows(doc.nodes, m) && WellFormed(m.vnode) && WellFormed(v)
    requires SameVnode(m.vnode, v) ==> Patchable(v)
    modifies doc
    ensures doc.Valid() && r.vnode == v && Shows(doc.nodes, r) && Denotes(doc.nodes, r.elm, Seen(r))
    ensures Denotes(doc.nodes, r.elm, Build(v)) <==> Whole(r)
    ensures Keyed(v) && Patchable(m.vnode) ==>
              (Denotes(doc.nodes, r.elm, Build(v)) <==> Lossless(if SameVnode(m.vnode, v) then Some(m) else None, v))
    ensures m.elm in old(doc.nodes)
    ensures Follows(if SameVnode(m.vnode, v) then Some(m) else None, r)
    ensures r.elm in doc.nodes && doc.nodes[r.elm].parent == old(doc.nodes)[m.elm].parent
    ensures if SameVnode(m.vnode, v) then r.elm == m.elm
            else r.elm !in old(doc.nodes) && m.elm in doc.nodes && doc.nodes[m.elm].parent == None
    ensures old(doc.nodes)[m.elm].parent.Some? ==>
              var p := old(doc.nodes)[m.elm].parent.value;
              && p in old(doc.nodes) && m.elm in old(doc.nodes)[p].children
              && Kept(old(doc.nodes), doc.nodes, Foot(m) + {p})
              && doc.nodes[p].children
                 == old(doc.nodes)[p].children[IndexOf(old(doc.nodes)[p].children, m.elm) := r.elm]
    ensures old(doc.nodes)[m.elm].parent.None? ==> Kept(old(doc.nodes), doc.nodes, Foot(m))
  {
    hide Grove, Shows, AllShow, Patchable, WellFormed, Build, Foot, Follows, Whole, Seen, SameVnode, Keyed, Lossless;
    ghost var n0 := doc.nodes;
    RootFoot(n0, m);
    assert LinkedAt(n0, m.elm);
    ParentOutside(n0, m);
    if SameVnode(m.vnode, v) {
      r := PatchVnode(doc, m, v);
    } else {
      var parent, ref := doc.nodes[m.elm].parent, doc.NextSibling(m.elm);
      if parent.None? {
        r := CreateElm(doc, v, None, None);
        RootFoot(doc.nodes, r);
      } else {
        r := ReplaceRoot(doc, m, v, parent.value, ref);
      }
      DenotesBuilt(doc.nodes, r);
      FollowsNone(r);
    }
    if Keyed(v) && Patchable(m.vnode) {
      PatchedExactly(n0, if SameVnode(m.vnode, v) then Some(m) else None, doc.nodes, r);
    }
  }

  // ----- inputs

  function InputOf(kind: string): VNode {
    VNode(None, Some("input"), Some(Data(Some(map["type" := kind]))), NoChildren, None, false)
  }

  lemma InputsSame(from: string, to: string)
    ensures SameVnode(InputOf(from), InputOf(to)) <==>
            from == to || (IsTextInputType(Type(from)) && IsTextInputType(Type(to)))
  {
    assert InputTypeOf(InputOf(from)) == Type(from) && InputTypeOf(InputOf(to)) == Type(to);
  }

  /** An input whose type changes keeps its element exactly when both types are for text. */
  method PatchInput(doc: Document, m: Mounted, from: string, to: string) returns (r: Mounted)
    requires doc.Valid() && Shows(doc.nodes, m) && m.vnode == InputOf(from)
    modifies doc
    ensures doc.Valid() && r.vnode == InputOf(to) && Shows(doc.nodes, r)
    ensures m.elm in old(doc.nodes)
    ensures r.elm == m.elm || r.elm !in old(doc.nodes)
    ensures r.elm == m.elm <==>
            (from == to || {from, to} <= {"text", "number", "password", "search", "email", "tel", "url"})
  {
    hide Shows, Denotes, Build, Follows, Whole, Foot, Lossless, Keyed;
    InputsSame(from, to);
    r := PatchRoot(doc, m, InputOf(to));
  }
}
