/** The bookkeeping of the two-ended update: which old node each new one takes, and the key index. */
module Matching {
  import opened Common
  import opened VNodes
  import opened Dom
  import opened Mounting

  // ----- the two-ended update

  /** For each key, the place of an old node that bears it. */
  type KeyIndex = map<Key, nat>

  /** Which new slot took which old one (ghost), and which old one each new slot reuses. */
  datatype Books = Books(taken: seq<Option<nat>>, src: seq<Option<nat>>)

  /** Where the four cursors are: outside them every old slot is taken and every new slot is filled. */
  ghost predicate Range(old0: seq<Mounted>, olds: seq<Option<Mounted>>, news: seq<Option<Mounted>>, b: Books,
                        os: int, oe: int, ns: int, ne: int) {
    && |olds| == |old0| == |b.taken| && |news| == |b.src|
    && 0 <= os <= oe + 1 <= |olds| && 0 <= ns <= ne + 1 <= |news|
    && (forall i :: os <= i <= oe ==> olds[i] == if b.taken[i].None? then Some(old0[i]) else None)
    && (forall i :: 0 <= i < |old0| && (i < os || i > oe) ==> b.taken[i].Some?)
    && (forall j :: 0 <= j < |news| ==> (news[j].Some? <==> j < ns || j > ne))
  }

  ghost predicate Reuses(old0: seq<Mounted>, newCh: seq<VNode>, news: seq<Option<Mounted>>, b: Books, j: nat)
    requires |news| == |b.src| == |newCh| && j < |newCh| && b.src[j].Some?
  {
    var i := b.src[j].value;
    && i < |old0| && i < |b.taken| && b.taken[i] == Some(j)
    && news[j].Some? && news[j].value.elm == old0[i].elm
    && SameVnode(old0[i].vnode, newCh[j]) && Follows(Some(old0[i]), news[j].value)
  }

  ghost predicate NoKeyedPair(old0: seq<Mounted>, v: VNode) {
    forall i :: 0 <= i < |old0| ==> !KeyedPair(old0[i].vnode, v)
  }

  /** No old node that is still free is the same as v. */
  ghost predicate NoneLeft(old0: seq<Mounted>, b: Books, v: VNode)
    requires |b.taken| == |old0|
  {
    forall i :: 0 <= i < |old0| && b.taken[i].None? ==> !SameVnode(old0[i].vnode, v)
  }

  /** Reuse so far is a matching of same virtual nodes, and leaves no keyed pair and no same keyless node behind. */
  ghost predicate Matched(old0: seq<Mounted>, newCh: seq<VNode>, keys0: set<Id>, news: seq<Option<Mounted>>, b: Books) {
    && |b.taken| == |old0| && |news| == |b.src| == |newCh|
    && (forall j :: 0 <= j < |news| && news[j].Some? ==> news[j].value.vnode == newCh[j])
    && (forall i :: 0 <= i < |old0| && b.taken[i].Some? ==>
          b.taken[i].value < |newCh| && b.src[b.taken[i].value] == Some(i))
    && (forall j :: 0 <= j < |newCh| && b.src[j].Some? ==> Reuses(old0, newCh, news, b, j))
    && (forall j :: 0 <= j < |newCh| && news[j].Some? && b.src[j].None? ==>
          && news[j].value.elm !in keys0 && Whole(news[j].value)
          && (UniqueOldKeys(old0) ==> NoKeyedPair(old0, newCh[j]))
          && (newCh[j].key.None? ==> NoneLeft(old0, b, newCh[j])))
  }

  /** The key index, once built, points at bearers of the key and covers every old slot not yet taken. */
  ghost predicate Indexed(old0: seq<Mounted>, b: Books, idx: Option<KeyIndex>)
    requires |b.taken| == |old0|
  {
    match idx
    case None => true
    case Some(m) =>
      && (forall k :: k in m ==> m[k] < |old0| && old0[m[k]].vnode.key == Some(k))
      && (forall i :: 0 <= i < |old0| && b.taken[i].None? && old0[i].vnode.key.Some? ==> old0[i].vnode.key.value in m)
  }

  /** Before the index is built no old slot between the cursors is taken. */
  ghost predicate Untaken(olds: seq<Option<Mounted>>, os: int, oe: int)
  {
    forall i :: 0 <= os <= i <= oe < |olds| ==> olds[i].Some?
  }

  lemma MatchTake(old0: seq<Mounted>, newCh: seq<VNode>, keys0: set<Id>, news: seq<Option<Mounted>>, b: Books,
                  i: nat, j: nat, r: Mounted)
    requires Matched(old0, newCh, keys0, news, b)
    requires i < |old0| && j < |newCh| && b.taken[i].None? && news[j].None?
    requires r.vnode == newCh[j] && r.elm == old0[i].elm && SameVnode(old0[i].vnode, newCh[j])
    requires Follows(Some(old0[i]), r)
    ensures Matched(old0, newCh, keys0, news[j := Some(r)], Books(b.taken[i := Some(j)], b.src[j := Some(i)]))
  {
    hide Whole, Follows;
    var news', b' := news[j := Some(r)], Books(b.taken[i := Some(j)], b.src[j := Some(i)]);
    assert b.src[j].None? by {
      if b.src[j].Some? {
        assert Reuses(old0, newCh, news, b, j);
      }
    }
    forall j' | 0 <= j' < |newCh| && b'.src[j'].Some? ensures Reuses(old0, newCh, news', b', j') {
      if j' != j {
        assert Reuses(old0, newCh, news, b, j');
      }
    }
  }

  lemma MatchCreate(old0: seq<Mounted>, newCh: seq<VNode>, keys0: set<Id>, news: seq<Option<Mounted>>, b: Books,
                    j: nat, r: Mounted)
    requires Matched(old0, newCh, keys0, news, b)
    requires j < |newCh| && news[j].None? && r.vnode == newCh[j] && r.elm !in keys0 && Whole(r)
    requires UniqueOldKeys(old0) ==> NoKeyedPair(old0, newCh[j])
    requires newCh[j].key.None? ==> NoneLeft(old0, b, newCh[j])
    ensures Matched(old0, newCh, keys0, news[j := Some(r)], b)
  {
    hide Whole, Follows;
    var news' := news[j := Some(r)];
    forall j' | 0 <= j' < |newCh| && b.src[j'].Some? ensures Reuses(old0, newCh, news', b, j') {
      assert Reuses(old0, newCh, news, b, j');
    }
  }

  /** An old slot that has the key of a new node still to be placed is not taken. */
  lemma TakenBy(old0: seq<Mounted>, newCh: seq<VNode>, keys0: set<Id>, news: seq<Option<Mounted>>, b: Books, i: nat,
                j: nat)
    requires Matched(old0, newCh, keys0, news, b) && UniqueKeys(newCh)
    requires i < |old0| && j < |newCh| && news[j].None? && newCh[j].key.Some?
    ensures old0[i].vnode.key == newCh[j].key ==> b.taken[i].None?
  {
    assert b.taken[i].Some? ==> Reuses(old0, newCh, news, b, b.taken[i].value);
  }

  /** A new node for which the index has no same node has no keyed partner among the old ones. */
  lemma NoPartner(old0: seq<Mounted>, newCh: seq<VNode>, keys0: set<Id>, news: seq<Option<Mounted>>, b: Books,
                  m: KeyIndex, j: nat)
    requires Matched(old0, newCh, keys0, news, b) && UniqueKeys(newCh) && Indexed(old0, b, Some(m))
    requires j < |newCh| && news[j].None?
    requires newCh[j].key.Some? && newCh[j].key.value in m ==> !SameVnode(old0[m[newCh[j].key.value]].vnode, newCh[j])
    ensures UniqueOldKeys(old0) ==> NoKeyedPair(old0, newCh[j])
  {
    if UniqueOldKeys(old0) {
      forall i | 0 <= i < |old0| && newCh[j].key.Some? && old0[i].vnode.key == newCh[j].key
        ensures !SameVnode(old0[i].vnode, newCh[j])
      {
        TakenBy(old0, newCh, keys0, news, b, i, j);
        assert i == m[newCh[j].key.value];
      }
    }
  }

  /** `createKeyToOldIdx`: for each key between the bounds, the last place that has it. */
  method CreateKeyToOldIdx(olds: seq<Option<Mounted>>, begin: int, end: int) returns (m: KeyIndex)
    requires 0 <= begin <= end + 1 <= |olds| && Untaken(olds, begin, end)
    ensures forall k :: k in m ==> begin <= m[k] <= end && olds[m[k]].value.vnode.key == Some(k)
    ensures forall i :: begin <= i <= end && olds[i].value.vnode.key.Some? ==>
              olds[i].value.vnode.key.value in m && i <= m[olds[i].value.vnode.key.value]
  {
    m := map[];
    var i := begin;
    while i <= end
      invariant begin <= i <= end + 1
      invariant forall k :: k in m ==> begin <= m[k] < i && olds[m[k]].value.vnode.key == Some(k)
      invariant forall h :: begin <= h < i && olds[h].value.vnode.key.Some? ==>
                  olds[h].value.vnode.key.value in m && h <= m[olds[h].value.vnode.key.value]
    {
      var key := olds[i].value.vnode.key;
      if key.Some? {
        m := m[key.value := i];
      }
      i := i + 1;
    }
  }

  /** `findIdxInOld`: the first place before the last old slot whose node is the same. */
  method FindIdxInOld(v: VNode, olds: seq<Option<Mounted>>, start: int, end: int) returns (idx: Option<nat>)
    requires 0 <= start <= end < |olds|
    ensures idx.Some? ==> start <= idx.value < end && olds[idx.value].Some? && SameVnode(v, olds[idx.value].value.vnode)
    ensures forall i :: start <= i < (if idx.Some? then idx.value else end) && olds[i].Some? ==>
              !SameVnode(v, olds[i].value.vnode)
  {
    var i := start;
    while i < end
      invariant start <= i <= end
      invariant forall h :: start <= h < i && olds[h].Some? ==> !SameVnode(v, olds[h].value.vnode)
    {
      var c := olds[i];
      if c.Some? && SameVnode(v, c.value.vnode) {
        return Some(i);
      }
      i := i + 1;
    }
    idx := None;
  }
}
