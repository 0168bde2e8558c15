/** The component cache of keep-alive: at most `limit` components, the least recently rendered evicted first. */
module KeepAlive {
  import opened Common

  type Key = string

  /** A component virtual node, as far as the cache looks at it. */
  datatype Component = Component(tag: string, instance: nat)

  // ----- the reference: recency of a history of renders

  /** The position of the last render of k. */
  ghost function LastUse(h: seq<Key>, k: Key): (i: nat)
    requires k in h
    ensures i < |h| && h[i] == k && k !in h[i + 1..]
  {
    if h[|h| - 1] == k then |h| - 1
    else
      assert k in h[..|h| - 1] by {
        var j :| 0 <= j < |h| && h[j] == k;
        assert h[..|h| - 1][j] == k;
      }
      var i := LastUse(h[..|h| - 1], k);
      assert h[i + 1..] == h[..|h| - 1][i + 1..] + [h[|h| - 1]];
      i
  }

  /** b was rendered after a was last rendered. */
  ghost predicate Fresher(h: seq<Key>, a: Key, b: Key) {
    a in h && b in h && LastUse(h, a) < LastUse(h, b)
  }

  /** r is in order of last render. */
  ghost predicate ByRecency(h: seq<Key>, r: seq<Key>) {
    && (forall i :: 0 <= i < |r| ==> r[i] in h)
    && (forall i, j :: 0 <= i < j < |r| ==> Fresher(h, r[i], r[j]))
  }

  /** Every rendered key that r lacks is older than all keys of r. */
  ghost predicate OthersOlder(h: seq<Key>, r: seq<Key>) {
    forall k, i :: k in h && k !in r && 0 <= i < |r| ==> Fresher(h, k, r[i])
  }

  /** r has at most m keys, and fewer only if it has them all. */
  ghost predicate Full(h: seq<Key>, r: seq<Key>, m: Option<nat>) {
    && (m.Some? ==> |r| <= m.value)
    && (m.None? || |r| < m.value ==> forall k :: k in h ==> k in r)
  }

  /** r is the m most recently rendered distinct keys, oldest first. */
  ghost predicate MostRecent(h: seq<Key>, r: seq<Key>, m: Option<nat>) {
    ByRecency(h, r) && OthersOlder(h, r) && Full(h, r, m)
  }

  /** One more render makes its key fresher than all others and changes nothing between the others. */
  lemma FresherNext(h: seq<Key>, x: Key, a: Key, b: Key)
    ensures Fresher(h + [x], a, b) <==> a != x && a in h && (b == x || Fresher(h, a, b))
    ensures a in h + [x] <==> a in h || a == x
  {
    forall k | k in h + [x]
      ensures k == x ==> LastUse(h + [x], k) == |h|
      ensures k != x ==> k in h && LastUse(h + [x], k) == LastUse(h, k)
    {
      assert (h + [x])[..|h|] == h;
    }
    assert b == x ==> (h + [x])[|h|] == b;
    assert forall k :: k in h ==> k in h + [x];
  }

  /** Rendering x puts it behind the keys w in order, if what w lacks, but for x, is older than w. */
  lemma Rendered(h: seq<Key>, w: seq<Key>, x: Key)
    requires ByRecency(h, w) && x !in w
    requires forall k, i :: k in h && k !in w && k != x && 0 <= i < |w| ==> Fresher(h, k, w[i])
    ensures ByRecency(h + [x], w + [x]) && OthersOlder(h + [x], w + [x])
  {
    hide Fresher;
    var r' := w + [x];
    assert r'[|w|] == x;
    forall i | 0 <= i < |r'| ensures r'[i] in h + [x] {
      FresherNext(h, x, r'[i], x);
    }
    forall i, j | 0 <= i < j < |r'| ensures Fresher(h + [x], r'[i], r'[j]) {
      FresherNext(h, x, r'[i], r'[j]);
      assert w[i] in w;
    }
    forall k, i | k in h + [x] && k !in r' && 0 <= i < |r'| ensures Fresher(h + [x], k, r'[i]) {
      FresherNext(h, x, k, r'[i]);
    }
  }

  /** Without x, the keys are in order still, and what they lack but for x is older. */
  lemma LeftOut(h: seq<Key>, r: seq<Key>, x: Key)
    requires ByRecency(h, r) && OthersOlder(h, r) && Distinct(r) && x in r
    ensures ByRecency(h, Without(r, x))
    ensures forall k, i :: k in h && k !in Without(r, x) && k != x && 0 <= i < |Without(r, x)| ==>
              Fresher(h, k, Without(r, x)[i])
  {
    hide Fresher, Distinct;
    var i, w := IndexOf(r, x), Without(r, x);
    WithoutDistinct(r, x);
    assert forall a :: 0 <= a < |w| ==> w[a] == r[if a < i then a else a + 1];
  }

  /** A cached key is rendered again. */
  lemma Refreshed(h: seq<Key>, r: seq<Key>, m: Option<nat>, x: Key)
    requires MostRecent(h, r, m) && Distinct(r) && x in r
    ensures MostRecent(h + [x], Without(r, x) + [x], m)
    ensures Distinct(Without(r, x) + [x])
  {
    hide Fresher, ByRecency, OthersOlder;
    WithoutDistinct(r, x);
    LeftOut(h, r, x);
    Rendered(h, Without(r, x), x);
    assert forall k :: k in h + [x] <==> k in h || k == x;
  }

  /** A new key is rendered: it is appended, and what is then one too many is the first. */
  lemma Appended(h: seq<Key>, r: seq<Key>, m: Option<nat>, x: Key)
    requires MostRecent(h, r, m) && Distinct(r) && x !in r
    ensures Distinct(r + [x])
    ensures m.None? || |r| < m.value ==> MostRecent(h + [x], r + [x], m)
    ensures m.Some? && |r| == m.value ==> MostRecent(h + [x], (r + [x])[1..], m)
  {
    hide Fresher;
    assert forall k :: k in h + [x] <==> k in h || k == x;
    if m.None? || |r| < m.value {
      Rendered(h, r, x);
    } else if r != [] {
      var w := r[1..];
      assert (r + [x])[1..] == w + [x];
      assert forall a :: 0 <= a < |w| ==> w[a] == r[a + 1];
      assert r == [r[0]] + w;
      Rendered(h, w, x);
    }
  }

  // ----- the component

  lemma SizeFacts(h: seq<Key>, r: seq<Key>, m: Option<nat>)
    requires MostRecent(h, r, m)
    ensures m.Some? ==> |r| <= m.value
  {
  }

  lemma KeepsKeys(s: seq<Key>, x: Key)
    requires Distinct(s) && x in Elems(s)
    ensures Elems(Without(s, x) + [x]) == Elems(s)
  {
    WithoutDistinct(s, x);
  }

  lemma AddsKey(s: seq<Key>, x: Key)
    ensures Elems(s + [x]) == Elems(s) + {x} && (s + [x])[0] in Elems(s) + {x}
  {
  }

  lemma FirstGone(s: seq<Key>)
    requires Distinct(s) && s != []
    ensures Without(s, s[0]) == s[1..] && Distinct(s[1..]) && Elems(s[1..]) == Elems(s) - {s[0]}
  {
    hide Distinct, Without;
    assert s == [] + [s[0]] + s[1..] && [] + s[1..] == s[1..];
    WithoutMiddle([], s[0], s[1..]);
    WithoutDistinct(s, s[0]);
  }

  class KeepAlive {
    const limit: Option<nat>        // parseInt(max), if max is given and truthy
    var cache: map<Key, Component>  // the live entries
    var keys: seq<Key>
    var current: Option<Component>  // _vnode: what was rendered last
    var destroyed: seq<nat>         // the instances destroyed so far
    ghost var history: seq<Key>     // the keys rendered so far

    /** The cached keys, without repetition, are those with a live entry, and are the most recently rendered ones. */
    ghost predicate Valid()
      reads this
    {
      Distinct(keys) && cache.Keys == Elems(keys) && MostRecent(history, keys, limit)
    }

    constructor (limit: Option<nat>)
      ensures Valid() && keys == [] && history == [] && destroyed == [] && this.limit == limit
    {
      this.limit := limit;
      cache, keys, current, destroyed, history := map[], [], None, [], [];
    }

    /** `pruneCacheEntry`. */
    method PruneCacheEntry(key: Key, shown: Option<Component>)
      modifies this`cache, this`keys, this`destroyed
      ensures cache == old(cache) - {key} && keys == Without(old(keys), key)
      ensures destroyed == old(destroyed)
                           + if key in old(cache) && (shown.None? || old(cache)[key].tag != shown.value.tag)
                             then [old(cache)[key].instance] else []
    {
      if key in cache && (shown.None? || cache[key].tag != shown.value.tag) {
        destroyed := destroyed + [cache[key].instance];
      }
      cache := cache - {key};
      keys := Without(keys, key);
    }

    /** `render` with a component child of the given key: the instance that is shown is the cached one, if any, and
        the only entry that can go is the least recently rendered one, its instance destroyed unless it has the tag
        of what is still on the page. */
    method Render(key: Key, vnode: Component) returns (shown: Component)
      requires Valid()
      modifies this
      ensures Valid() && history == old(history) + [key] && current == Some(shown)
      ensures key in old(cache) ==>
                && shown == vnode.(instance := old(cache)[key].instance)
                && cache == old(cache) && destroyed == old(destroyed)
      ensures key !in old(cache) ==>
                && shown == vnode
                && Evicts(old(keys) + [key], old(cache)[key := vnode], cache, old(current), old(destroyed), destroyed)
    {
      hide MostRecent, Distinct, Without;
      shown := vnode;
      if key in cache {
        shown := vnode.(instance := cache[key].instance);
        Refreshed(history, keys, limit, key);
        KeepsKeys(keys, key);
        keys := Without(keys, key);
        keys := keys + [key];
      } else {
        Store(key, vnode);
      }
      history := history + [key];
      current := Some(shown);
    }

    /** The miss of `render`. */
    method Store(key: Key, vnode: Component)
      requires Valid() && key !in cache
      modifies this`cache, this`keys, this`destroyed
      ensures Distinct(keys) && cache.Keys == Elems(keys) && MostRecent(history + [key], keys, limit)
      ensures Evicts(old(keys) + [key], old(cache)[key := vnode], cache, current, old(destroyed), destroyed)
    {
      hide MostRecent, Distinct, Without;
      Appended(history, keys, limit, key);
      SizeFacts(history, keys, limit);
      AddsKey(keys, key);
      cache := cache[key := vnode];
      keys := keys + [key];
      if limit.Some? && |keys| > limit.value {
        FirstGone(keys);
        PruneCacheEntry(keys[0], current);
      }
    }

    /** Nothing was evicted, or the oldest entry was. */
    ghost predicate Evicts(ks: seq<Key>, full: map<Key, Component>, kept: map<Key, Component>,
                           onPage: Option<Component>,
                           before: seq<nat>, after: seq<nat>)
      requires ks != [] && ks[0] in full
    {
      if limit.None? || |ks| <= limit.value then kept == full && after == before
      else
        && kept == full - {ks[0]}
        && after == before + if onPage.None? || full[ks[0]].tag != onPage.value.tag then [full[ks[0]].instance] else []
    }
  }
}
