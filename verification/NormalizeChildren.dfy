/** Flattening nested children and merging adjacent text nodes. */
module NormalizeChildren {
  import opened Common
  import opened VNodes

  /** A child as a render function may return it. Numbers and other primitives appear as their strings. */
  datatype Child =
    | Empty                                        // undefined, null or a boolean
    | Primitive(text: string)
    | Node(vnode: VNode)
    | Nested(list: seq<Child>, isVList: bool)

  predicate IsTextNode(v: VNode) {
    v.text.Some? && !v.isComment
  }

  function Digits(n: nat): string {
    (if n < 10 then "" else Digits(n / 10)) + ["0123456789"[n % 10]]
  }

  function NestedIndex(index: Option<string>, i: nat): string {
    (if index.Some? then index.value else "") + "_" + Digits(i)
  }

  /** The default key of a node in a v-for list. */
  function WithDefaultKey(v: VNode, isVList: bool, index: Option<string>, i: nat): VNode {
    if isVList && v.tag.Some? && v.key.None? && index.Some? then
      v.(key := Some("__vlist" + index.value + "_" + Digits(i) + "__"))
    else v
  }

  // ----- what normalizing must preserve

  /** The nodes that are not text, and the text before, between and after them. */
  datatype Skeleton = Skeleton(texts: seq<string>, nodes: seq<VNode>)

  ghost predicate Proper(s: Skeleton) {
    |s.texts| == |s.nodes| + 1
  }

  const NOTHING := Skeleton([""], [])

  function OfText(t: string): Skeleton {
    Skeleton([t], [])
  }

  function OfNode(v: VNode): Skeleton {
    if IsTextNode(v) then OfText(v.text.value) else Skeleton(["", ""], [v])
  }

  /** One after the other: the texts that meet are concatenated. */
  ghost function Join(a: Skeleton, b: Skeleton): (s: Skeleton)
    requires Proper(a) && Proper(b)
    ensures Proper(s)
  {
    Skeleton(a.texts[..|a.texts| - 1] + [a.texts[|a.texts| - 1] + b.texts[0]] + b.texts[1..], a.nodes + b.nodes)
  }

  lemma JoinAssociative(a: Skeleton, b: Skeleton, c: Skeleton)
    requires Proper(a) && Proper(b) && Proper(c)
    ensures Join(Join(a, b), c) == Join(a, Join(b, c))
  {
    if |b.texts| == 1 {
      var x, y, z := a.texts[|a.texts| - 1], b.texts[0], c.texts[0];
      assert (x + y) + z == x + (y + z);
    }
  }

  lemma JoinNothing(a: Skeleton)
    requires Proper(a)
    ensures Join(a, NOTHING) == a && Join(NOTHING, a) == a
  {
    assert a.texts[|a.texts| - 1] + "" == a.texts[|a.texts| - 1];
    assert "" + a.texts[0] == a.texts[0];
  }

  ghost function OfNodes(vs: seq<VNode>): (s: Skeleton)
    ensures Proper(s)
  {
    if vs == [] then NOTHING else Join(OfNodes(vs[..|vs| - 1]), OfNode(vs[|vs| - 1]))
  }

  /** The first n children, to any depth, with the default keys of v-for lists. */
  ghost function OfChildren(cs: seq<Child>, n: nat, isVList: bool, index: Option<string>): (s: Skeleton)
    requires n <= |cs|
    ensures Proper(s)
    decreases cs, n
  {
    if n == 0 then NOTHING
    else
      var before := OfChildren(cs, n - 1, isVList, index);
      match cs[n - 1]
      case Empty => before
      case Primitive(t) => Join(before, OfText(t))
      case Node(v) => Join(before, OfNode(WithDefaultKey(v, isVList, index, n - 1)))
      case Nested(list, vlist) => Join(before, OfChildren(list, |list|, vlist, Some(NestedIndex(index, n - 1))))
  }

  ghost predicate NoAdjacentText(vs: seq<VNode>) {
    forall i :: 0 <= i < |vs| - 1 ==> !(IsTextNode(vs[i]) && IsTextNode(vs[i + 1]))
  }

  lemma OfOne(v: VNode)
    ensures OfNodes([v]) == OfNode(v)
  {
    JoinNothing(OfNode(v));
    assert [v][..0] == [];
  }

  lemma {:induction false} OfConcat(a: seq<VNode>, b: seq<VNode>)
    ensures OfNodes(a + b) == Join(OfNodes(a), OfNodes(b))
  {
    if b == [] {
      assert a + b == a;
      JoinNothing(OfNodes(a));
    } else {
      var init, v := b[..|b| - 1], b[|b| - 1];
      assert (a + b)[..|a + b| - 1] == a + init;
      OfConcat(a, init);
      JoinAssociative(OfNodes(a), OfNodes(init), OfNode(v));
    }
  }

  /** Replacing a trailing text node by the merged one joins the text. */
  lemma MergedLast(res: seq<VNode>, t: string)
    requires res != [] && IsTextNode(res[|res| - 1])
    ensures OfNodes(res[|res| - 1 := TextVNode(res[|res| - 1].text.value + t)]) == Join(OfNodes(res), OfText(t))
  {
    var init, last := res[..|res| - 1], res[|res| - 1];
    var res' := res[|res| - 1 := TextVNode(last.text.value + t)];
    assert res'[..|res'| - 1] == init;
    JoinAssociative(OfNodes(init), OfNode(last), OfText(t));
    assert Join(OfNode(last), OfText(t)) == OfText(last.text.value + t);
  }

  /** The children when they are all nodes already. */
  ghost function Vnodes(cs: seq<Child>): seq<VNode> {
    seq(|cs|, i requires 0 <= i < |cs| => if cs[i].Node? then cs[i].vnode else TextVNode(""))
  }

  /** Already flat and merged, and outside any nested list. */
  ghost predicate Normal(cs: seq<Child>, index: Option<string>) {
    index.None? && (forall i :: 0 <= i < |cs| ==> cs[i].Node?) && NoAdjacentText(Vnodes(cs))
  }

  /** Two normalized lists that do not meet in text. */
  lemma Appended(a: seq<VNode>, b: seq<VNode>)
    requires NoAdjacentText(a) && NoAdjacentText(b)
    requires !(a != [] && b != [] && IsTextNode(a[|a| - 1]) && IsTextNode(b[0]))
    ensures NoAdjacentText(a + b) && OfNodes(a + b) == Join(OfNodes(a), OfNodes(b))
  {
    hide Join, OfNodes;
    OfConcat(a, b);
    var r := a + b;
    forall i | 0 <= i < |r| - 1 ensures !(IsTextNode(r[i]) && IsTextNode(r[i + 1])) {
      if i < |a| - 1 {
        assert r[i] == a[i] && r[i + 1] == a[i + 1];
      } else if i >= |a| {
        assert r[i] == b[i - |a|] && r[i + 1] == b[i - |a| + 1];
      }
    }
  }

  ghost predicate AllSolid(vs: seq<VNode>) {
    forall i :: 0 <= i < |vs| ==> vs[i].text != Some("")
  }

  lemma OneNode(v: VNode)
    ensures NoAdjacentText([v])
  {
  }

  lemma SolidMore(res: seq<VNode>, v: VNode)
    requires v.text != Some("")
    ensures AllSolid(res) ==> AllSolid(res + [v])
  {
  }

  /** One node behind res, not to be merged. */
  lemma Pushed(res: seq<VNode>, v: VNode)
    requires NoAdjacentText(res) && !(IsTextNode(v) && res != [] && IsTextNode(res[|res| - 1]))
    ensures NoAdjacentText(res + [v]) && OfNodes(res + [v]) == Join(OfNodes(res), OfNode(v))
    ensures AllSolid(res) && v.text != Some("") ==> AllSolid(res + [v])
  {
    hide Join, OfNodes, AllSolid, NoAdjacentText;
    OfOne(v);
    OneNode(v);
    Appended(res, [v]);
    if v.text != Some("") {
      SolidMore(res, v);
    }
  }

  /** A text behind res, merged. */
  lemma Merged(res: seq<VNode>, t: string)
    requires NoAdjacentText(res) && res != [] && IsTextNode(res[|res| - 1])
    ensures var r := res[|res| - 1 := TextVNode(res[|res| - 1].text.value + t)];
            && NoAdjacentText(r) && OfNodes(r) == Join(OfNodes(res), OfText(t))
            && (AllSolid(res) ==> AllSolid(r))
  {
    MergedLast(res, t);
  }

  /** A normalized list that starts with text, its first node taken off. */
  lemma Shifted(c: seq<VNode>, a: Skeleton)
    requires NoAdjacentText(c) && c != [] && IsTextNode(c[0]) && Proper(a)
    ensures NoAdjacentText(c[1..]) && (c[1..] != [] ==> !IsTextNode(c[1..][0]))
    ensures Join(Join(a, OfText(c[0].text.value)), OfNodes(c[1..])) == Join(a, OfNodes(c))
  {
    hide Join, OfNodes;
    assert c == [c[0]] + c[1..];
    OfConcat([c[0]], c[1..]);
    OfOne(c[0]);
    JoinAssociative(a, OfText(c[0].text.value), OfNodes(c[1..]));
    var d := c[1..];
    forall i | 0 <= i < |d| - 1 ensures !(IsTextNode(d[i]) && IsTextNode(d[i + 1])) {
      assert d[i] == c[i + 1] && d[i + 1] == c[i + 1 + 1];
    }
    assert d != [] ==> !(IsTextNode(c[0]) && IsTextNode(c[0 + 1]));
  }

  /** No text node among the children, at any depth, is empty. Strings may be. */
  ghost predicate Solid(cs: seq<Child>) {
    forall i :: 0 <= i < |cs| ==>
      match cs[i]
      case Node(v) => v.text != Some("")
      case Nested(list, _) => Solid(list)
      case _ => true
  }

  /** The nested case: normalized children are appended, the first merged into a trailing text node. */
  method AppendMerged(res: seq<VNode>, more: seq<VNode>) returns (r: seq<VNode>)
    requires NoAdjacentText(res) && NoAdjacentText(more)
    ensures NoAdjacentText(r) && OfNodes(r) == Join(OfNodes(res), OfNodes(more))
    ensures AllSolid(res) && AllSolid(more) ==> AllSolid(r)
  {
    hide NoAdjacentText, Join, OfNodes;
    var c := more;
    r := res;
    if c != [] && IsTextNode(c[0]) && r != [] && IsTextNode(r[|r| - 1]) {
      Merged(r, c[0].text.value);
      Shifted(c, OfNodes(r));
      r := r[|r| - 1 := TextVNode(r[|r| - 1].text.value + c[0].text.value)];
      c := c[1..];
    }
    Appended(r, c);
    r := r + c;
  }

  // ----- which keys the nodes have

  /** A node that is no text, somewhere in the children: whether the list it is in comes from v-for, and where it is. */
  datatype Leaf = Leaf(vnode: VNode, inVList: bool, path: seq<nat>)

  /** What is at a place in the children. */
  ghost function Lookup(cs: seq<Child>, isVList: bool, path: seq<nat>): Option<(VNode, bool)>
    decreases |path|
  {
    if path == [] || path[0] >= |cs| then None
    else match cs[path[0]]
      case Node(v) => if |path| == 1 then Some((v, isVList)) else None
      case Nested(list, vlist) => Lookup(list, vlist, path[1..])
      case _ => None
  }

  /** From left to right, and from outside inwards. */
  ghost predicate Before(p: seq<nat>, q: seq<nat>)
    decreases |p|
  {
    q != [] && (p == [] || p[0] < q[0] || (p[0] == q[0] && Before(p[1..], q[1..])))
  }

  lemma {:induction false} BeforeDiffers(p: seq<nat>, q: seq<nat>)
    ensures Before(p, q) ==> p != q
    decreases |p|
  {
    if p != [] && q != [] {
      BeforeDiffers(p[1..], q[1..]);
    }
  }

  ghost function Under(i: nat, ls: seq<Leaf>): seq<Leaf> {
    seq(|ls|, k requires 0 <= k < |ls| => ls[k].(path := [i] + ls[k].path))
  }

  /** The leaves of child i. */
  ghost function LeavesAt(cs: seq<Child>, i: nat, isVList: bool): seq<Leaf>
    requires i < |cs|
    decreases cs, 0
  {
    match cs[i]
    case Node(v) => if IsTextNode(v) then [] else [Leaf(v, isVList, [i])]
    case Nested(list, vlist) => Under(i, Leaves(list, |list|, vlist))
    case _ => []
  }

  /** The leaves of the first n children. */
  ghost function Leaves(cs: seq<Child>, n: nat, isVList: bool): seq<Leaf>
    requires n <= |cs|
    decreases cs, 1, n
  {
    if n == 0 then [] else Leaves(cs, n - 1, isVList) + LeavesAt(cs, n - 1, isVList)
  }

  ghost predicate InOrder(ls: seq<Leaf>) {
    forall j, k :: 0 <= j < k < |ls| ==> Before(ls[j].path, ls[k].path)
  }

  /** Every leaf is what is at its place. */
  ghost predicate Found(cs: seq<Child>, isVList: bool, l: Leaf) {
    && Lookup(cs, isVList, l.path) == Some((l.vnode, l.inVList))
    && (l.vnode.text.None? || l.vnode.isComment)
  }

  /** A place among the first n children at which a node is that is no text, is that of a leaf. */
  ghost predicate Covered(cs: seq<Child>, n: nat, isVList: bool, ls: seq<Leaf>, path: seq<nat>) {
    var x := Lookup(cs, isVList, path);
    path != [] && path[0] < n && x.Some? && (x.value.0.text.None? || x.value.0.isComment) ==>
      exists k :: 0 <= k < |ls| && ls[k].path == path
  }

  lemma CoveredUnder(cs: seq<Child>, i: nat, isVList: bool, inner: seq<Leaf>, path: seq<nat>)
    requires i < |cs| && cs[i].Nested? && path != [] && path[0] == i
    requires Covered(cs[i].list, |cs[i].list|, cs[i].isVList, inner, path[1..])
    ensures Covered(cs, |cs|, isVList, Under(i, inner), path)
  {
    var ls := Under(i, inner);
    assert Lookup(cs, isVList, path) == Lookup(cs[i].list, cs[i].isVList, path[1..]);
    if k :| 0 <= k < |inner| && inner[k].path == path[1..] {
      assert ls[k].path == [i] + path[1..] == path;
    }
  }

  lemma OneFound(cs: seq<Child>, i: nat, isVList: bool)
    requires i < |cs| && cs[i].Node?
    ensures var ls := LeavesAt(cs, i, isVList);
            && (forall k :: 0 <= k < |ls| ==> Found(cs, isVList, ls[k]) && ls[k].path == [i])
            && forall path: seq<nat> :: path != [] && path[0] == i ==> Covered(cs, |cs|, isVList, ls, path)
  {
    var ls, v := LeavesAt(cs, i, isVList), cs[i].vnode;
    forall path: seq<nat> | path != [] && path[0] == i ensures Covered(cs, |cs|, isVList, ls, path) {
      if |path| == 1 && !IsTextNode(v) {
        assert path == [i] && ls[0].path == path;
      }
    }
  }

  lemma OneInOrder(ls: seq<Leaf>)
    requires |ls| <= 1
    ensures InOrder(ls)
  {
  }

  lemma UnderInOrder(i: nat, ls: seq<Leaf>)
    requires InOrder(ls)
    ensures InOrder(Under(i, ls))
  {
    var us := Under(i, ls);
    forall j, k | 0 <= j < k < |us| ensures Before(us[j].path, us[k].path) {
      assert us[j].path[1..] == ls[j].path && us[k].path[1..] == ls[k].path;
    }
  }

  lemma {:induction false} LeavesAtAre(cs: seq<Child>, i: nat, isVList: bool)
    requires i < |cs|
    ensures var ls := LeavesAt(cs, i, isVList);
            && InOrder(ls)
            && (forall k :: 0 <= k < |ls| ==> Found(cs, isVList, ls[k]) && ls[k].path != [] && ls[k].path[0] == i)
            && forall path: seq<nat> :: path != [] && path[0] == i ==> Covered(cs, |cs|, isVList, ls, path)
    decreases cs, 0
  {
    hide InOrder, IsTextNode;
    var ls := LeavesAt(cs, i, isVList);
    match cs[i]
    case Node(v) =>
      OneInOrder(ls);
      OneFound(cs, i, isVList);
    case Nested(list, vlist) =>
      var inner := Leaves(list, |list|, vlist);
      LeavesAre(list, |list|, vlist);
      UnderInOrder(i, inner);
      forall k | 0 <= k < |ls| ensures Found(cs, isVList, ls[k]) && ls[k].path != [] && ls[k].path[0] == i {
        assert ls[k].path[1..] == inner[k].path;
        assert Found(list, vlist, inner[k]);
      }
      forall path: seq<nat> | path != [] && path[0] == i ensures Covered(cs, |cs|, isVList, ls, path) {
        CoveredUnder(cs, i, isVList, inner, path);
      }
    case Empty =>
      OneInOrder(ls);
    case Primitive(_) =>
      OneInOrder(ls);
  }

  lemma CoveredByEither(cs: seq<Child>, n: nat, isVList: bool, before: seq<Leaf>, now: seq<Leaf>, path: seq<nat>)
    requires 0 < n <= |cs| && Covered(cs, n - 1, isVList, before, path)
    requires path != [] && path[0] == n - 1 ==> Covered(cs, |cs|, isVList, now, path)
    ensures Covered(cs, n, isVList, before + now, path)
  {
    hide Lookup;
    var ls := before + now;
    if k :| 0 <= k < |before| && before[k].path == path {
      assert ls[k].path == path;
    }
    if k :| 0 <= k < |now| && now[k].path == path {
      assert ls[|before| + k].path == path;
    }
  }

  /** The leaves are the nodes that are no text, wherever they are, in the order of their places. */
  lemma {:induction false} LeavesAre(cs: seq<Child>, n: nat, isVList: bool)
    requires n <= |cs|
    ensures var ls := Leaves(cs, n, isVList);
            && InOrder(ls)
            && (forall k :: 0 <= k < |ls| ==> Found(cs, isVList, ls[k]) && ls[k].path != [] && ls[k].path[0] < n)
            && forall path :: Covered(cs, n, isVList, ls, path)
    decreases cs, 1, n
  {
    hide Found;
    if n == 0 {
    } else {
      var before, now, ls := Leaves(cs, n - 1, isVList), LeavesAt(cs, n - 1, isVList), Leaves(cs, n, isVList);
      LeavesAre(cs, n - 1, isVList);
      LeavesAtAre(cs, n - 1, isVList);
      forall k | 0 <= k < |ls|
        ensures Found(cs, isVList, ls[k]) && ls[k].path != [] && ls[k].path[0] < n
      {
        assert ls[k] == if k < |before| then before[k] else now[k - |before|];
      }
      forall j, k | 0 <= j < k < |ls| ensures Before(ls[j].path, ls[k].path) {
        assert ls[j] == if j < |before| then before[j] else now[j - |before|];
        assert ls[k] == if k < |before| then before[k] else now[k - |before|];
      }
      forall path ensures Covered(cs, n, isVList, ls, path) {
        CoveredByEither(cs, n, isVList, before, now, path);
      }
    }
  }

  /** The node keeps its key as it is: it has one, or is no element, or is in no list from v-for, or not in a nested
      one. */
  ghost predicate KeepsKey(l: Leaf, index: Option<string>) {
    l.vnode.key.Some? || l.vnode.tag.None? || !l.inVList || (index.None? && |l.path| == 1)
  }

  /** The nodes are the leaves, but for keys: those that keep theirs are as they were, and all others have one, each
      another one. */
  ghost predicate KeyedRight(nodes: seq<VNode>, ls: seq<Leaf>, index: Option<string>) {
    && |nodes| == |ls|
    && (forall k :: 0 <= k < |ls| ==> nodes[k].(key := None) == ls[k].vnode.(key := None))
    && (forall k :: 0 <= k < |ls| ==> if KeepsKey(ls[k], index) then nodes[k] == ls[k].vnode else nodes[k].key.Some?)
    && (forall j, k :: 0 <= j < k < |ls| && !KeepsKey(ls[j], index) && !KeepsKey(ls[k], index) ==>
          nodes[j].key != nodes[k].key)
  }

  /** The places in a key, and the key for a place. */
  ghost function Encoded(path: seq<nat>): string {
    if path == [] then "" else "_" + Digits(path[0]) + Encoded(path[1..])
  }

  ghost function DefaultKey(index: Option<string>, path: seq<nat>): string {
    "__vlist" + (if index.Some? then index.value else "") + Encoded(path) + "__"
  }

  lemma {:induction false} DigitsFacts(n: nat)
    ensures Digits(n) != [] && forall c :: c in Digits(n) ==> '0' <= c <= '9'
  {
    if n >= 10 {
      DigitsFacts(n / 10);
    }
  }

  lemma OneDigit(d: nat)
    requires d < 10
    ensures "0123456789"[d] as int == '0' as int + d
  {
  }

  lemma {:induction false} DigitsInjective(m: nat, n: nat)
    requires Digits(m) == Digits(n)
    ensures m == n
  {
    var a, b := Digits(m), Digits(n);
    assert a[|a| - 1] == "0123456789"[m % 10] && b[|b| - 1] == "0123456789"[n % 10];
    assert m % 10 == n % 10 by {
      OneDigit(m % 10);
      OneDigit(n % 10);
    }
    if m >= 10 {
      DigitsFacts(m / 10);
    }
    if n >= 10 {
      DigitsFacts(n / 10);
    }
    if m >= 10 && n >= 10 {
      assert a[..|a| - 1] == Digits(m / 10) && b[..|b| - 1] == Digits(n / 10);
      DigitsInjective(m / 10, n / 10);
    }
  }

  lemma UnderscoreIn(a: string, x: string, b: string, y: string)
    requires a + x == b + y && |a| < |b| && (x != [] ==> x[0] == '_')
    ensures '_' in b
  {
    assert x != [] by {
      assert |a + x| == |b + y|;
    }
    assert (a + x)[|a|] == x[0] && (b + y)[|a|] == b[|a|];
  }

  /** What stands before the first underscore is determined. */
  lemma BeforeUnderscore(a: string, x: string, b: string, y: string)
    requires a + x == b + y && '_' !in a && '_' !in b
    requires (x != [] ==> x[0] == '_') && (y != [] ==> y[0] == '_')
    ensures a == b && x == y
  {
    var s := a + x;
    if |a| < |b| {
      UnderscoreIn(a, x, b, y);
    } else if |b| < |a| {
      UnderscoreIn(b, y, a, x);
    }
    assert a == s[..|a|] && b == (b + y)[..|b|] && x == s[|a|..] && y == (b + y)[|b|..];
  }

  lemma {:induction false} EncodedInjective(p: seq<nat>, q: seq<nat>)
    requires Encoded(p) == Encoded(q)
    ensures p == q
    decreases |p|
  {
    hide Digits;
    if p != [] && q != [] {
      var a, x, b, y := Digits(p[0]), Encoded(p[1..]), Digits(q[0]), Encoded(q[1..]);
      assert Encoded(p)[1..] == a + x && Encoded(q)[1..] == b + y;
      DigitsFacts(p[0]);
      DigitsFacts(q[0]);
      BeforeUnderscore(a, x, b, y);
      DigitsInjective(p[0], q[0]);
      EncodedInjective(p[1..], q[1..]);
      assert p == [p[0]] + p[1..] && q == [q[0]] + q[1..];
    }
  }

  lemma DefaultKeyInjective(index: Option<string>, p: seq<nat>, q: seq<nat>)
    requires DefaultKey(index, p) == DefaultKey(index, q)
    ensures p == q
  {
    var front := "__vlist" + if index.Some? then index.value else "";
    var a, b := DefaultKey(index, p), DefaultKey(index, q);
    assert Encoded(p) == a[|front|..|a| - 2] && Encoded(q) == b[|front|..|b| - 2];
    EncodedInjective(p, q);
  }

  /** The leaf as it appears. */
  ghost function Appears(l: Leaf, index: Option<string>): VNode {
    if KeepsKey(l, index) then l.vnode else l.vnode.(key := Some(DefaultKey(index, l.path)))
  }

  ghost function AllAppear(ls: seq<Leaf>, index: Option<string>): seq<VNode> {
    seq(|ls|, k requires 0 <= k < |ls| => Appears(ls[k], index))
  }

  lemma EncodedNext(i: nat, path: seq<nat>)
    ensures Encoded([i] + path) == "_" + Digits(i) + Encoded(path) && Encoded([]) == ""
  {
    assert ([i] + path)[1..] == path;
  }

  lemma Reassociated(a: string, b: string, c: string, d: string, e: string)
    ensures a + (b + c + d) + e == a + b + (c + d + e)
    ensures a + b + (c + d + "") == a + b + c + d
  {
    assert c + d + "" == c + d;
  }

  lemma NestedKey(index: Option<string>, i: nat, path: seq<nat>)
    ensures DefaultKey(Some(NestedIndex(index, i)), path) == DefaultKey(index, [i] + path)
    ensures DefaultKey(index, [i]) == "__vlist" + (if index.Some? then index.value else "") + "_" + Digits(i) + "__"
  {
    hide Digits;
    var front := if index.Some? then index.value else "";
    EncodedNext(i, path);
    EncodedNext(i, []);
    assert [i] + [] == [i];
    Reassociated("__vlist", front, "_", Digits(i), Encoded(path));
    Reassociated("__vlist", front, "_", Digits(i), "");
  }

  lemma OfNodeAppears(v: VNode, isVList: bool, index: Option<string>, i: nat)
    ensures OfNode(WithDefaultKey(v, isVList, index, i)).nodes
            == if IsTextNode(v) then [] else [Appears(Leaf(v, isVList, [i]), index)]
  {
    NestedKey(index, i, []);
  }

  lemma UnderAppears(index: Option<string>, i: nat, ls: seq<Leaf>, list: seq<Child>, vlist: bool)
    requires ls == Leaves(list, |list|, vlist)
    ensures AllAppear(Under(i, ls), index) == AllAppear(ls, Some(NestedIndex(index, i)))
  {
    hide DefaultKey, NestedIndex;
    LeavesAre(list, |list|, vlist);
    forall k | 0 <= k < |ls| ensures Appears(Under(i, ls)[k], index) == Appears(ls[k], Some(NestedIndex(index, i))) {
      NestedKey(index, i, ls[k].path);
    }
  }

  /** The nodes of child i. */
  ghost function ChildNodes(cs: seq<Child>, i: nat, isVList: bool, index: Option<string>): seq<VNode>
    requires i < |cs|
  {
    match cs[i]
    case Node(v) => OfNode(WithDefaultKey(v, isVList, index, i)).nodes
    case Nested(list, vlist) => OfChildren(list, |list|, vlist, Some(NestedIndex(index, i))).nodes
    case _ => []
  }

  lemma NodesNext(cs: seq<Child>, i: nat, isVList: bool, index: Option<string>)
    requires i < |cs|
    ensures OfChildren(cs, i + 1, isVList, index).nodes
            == OfChildren(cs, i, isVList, index).nodes + ChildNodes(cs, i, isVList, index)
    ensures Leaves(cs, i + 1, isVList) == Leaves(cs, i, isVList) + LeavesAt(cs, i, isVList)
  {
    hide OfNode, WithDefaultKey, NestedIndex;
  }

  lemma NoneAppears(cs: seq<Child>, isVList: bool, index: Option<string>)
    ensures OfChildren(cs, 0, isVList, index).nodes == AllAppear(Leaves(cs, 0, isVList), index)
  {
  }

  lemma AppearConcat(a: seq<Leaf>, b: seq<Leaf>, index: Option<string>)
    ensures AllAppear(a + b, index) == AllAppear(a, index) + AllAppear(b, index)
  {
    hide Appears;
  }

  lemma {:induction false} ChildAppears(cs: seq<Child>, i: nat, isVList: bool, index: Option<string>)
    requires i < |cs|
    ensures ChildNodes(cs, i, isVList, index) == AllAppear(LeavesAt(cs, i, isVList), index)
    decreases cs, 0
  {
    hide DefaultKey, Digits, NestedIndex, Appears, WithDefaultKey, IsTextNode, OfNode, Under, OfChildren, Leaves;
    match cs[i]
    case Empty =>
    case Primitive(_) =>
    case Node(v) =>
      OfNodeAppears(v, isVList, index, i);
    case Nested(list, vlist) =>
      NodesAppear(list, |list|, vlist, Some(NestedIndex(index, i)));
      UnderAppears(index, i, Leaves(list, |list|, vlist), list, vlist);
  }

  /** Default keys are set just there. */
  lemma {:induction false} NodesAppear(cs: seq<Child>, n: nat, isVList: bool, index: Option<string>)
    requires n <= |cs|
    ensures OfChildren(cs, n, isVList, index).nodes == AllAppear(Leaves(cs, n, isVList), index)
    decreases cs, 1, n
  {
    hide ChildNodes, LeavesAt, OfChildren, Leaves, AllAppear;
    if n == 0 {
      NoneAppears(cs, isVList, index);
    } else {
      NodesAppear(cs, n - 1, isVList, index);
      ChildAppears(cs, n - 1, isVList, index);
      AppearConcat(Leaves(cs, n - 1, isVList), LeavesAt(cs, n - 1, isVList), index);
      NodesNext(cs, n - 1, isVList, index);
    }
  }

  lemma KeysRight(cs: seq<Child>, isVList: bool, index: Option<string>)
    ensures KeyedRight(OfChildren(cs, |cs|, isVList, index).nodes, Leaves(cs, |cs|, isVList), index)
  {
    hide DefaultKey, OfChildren, Leaves;
    var ls := Leaves(cs, |cs|, isVList);
    NodesAppear(cs, |cs|, isVList, index);
    LeavesAre(cs, |cs|, isVList);
    forall j, k | 0 <= j < k < |ls| ensures DefaultKey(index, ls[j].path) != DefaultKey(index, ls[k].path) {
      BeforeDiffers(ls[j].path, ls[k].path);
      if DefaultKey(index, ls[j].path) == DefaultKey(index, ls[k].path) {
        DefaultKeyInjective(index, ls[j].path, ls[k].path);
      }
    }
  }

  /** The nodes that are no text. */
  ghost function NonText(vs: seq<VNode>): seq<VNode> {
    if vs == [] then []
    else
      var v := vs[|vs| - 1];
      NonText(vs[..|vs| - 1]) + if v.text.Some? && !v.isComment then [] else [v]
  }

  lemma {:induction false} NonTextNodes(vs: seq<VNode>)
    ensures OfNodes(vs).nodes == NonText(vs)
  {
    if vs != [] {
      NonTextNodes(vs[..|vs| - 1]);
    }
  }

  lemma Start()
    ensures NoAdjacentText([]) && OfNodes([]) == NOTHING
  {
  }

  /** `normalizeArrayChildren`: the result is flat, has no two adjacent text nodes, keeps the other nodes in order
      and the text between them; nodes keep their keys, and elements without one in nested v-for lists get one, each
      another; no empty text nodes arise from strings; and children that are that way already come back as they are. */
  method NormalizeArrayChildren(children: seq<Child>, isVList: bool, index: Option<string>) returns (res: seq<VNode>)
    ensures NoAdjacentText(res)
    ensures OfNodes(res) == OfChildren(children, |children|, isVList, index)
    ensures Normal(children, index) ==> res == Vnodes(children)
    ensures KeyedRight(NonText(res), Leaves(children, |children|, isVList), index)
    ensures Solid(children) ==> AllSolid(res)
    decreases children
  {
    hide NoAdjacentText, Join, OfNodes, KeyedRight, Leaves;
    res := [];
    var i := 0;
    Start();
    while i < |children|
      invariant 0 <= i <= |children| && NoAdjacentText(res)
      invariant OfNodes(res) == OfChildren(children, i, isVList, index)
      invariant Normal(children, index) ==> res == Vnodes(children)[..i]
      invariant Solid(children) ==> AllSolid(res)
    {
      res := NormalizeNext(children, i, isVList, index, res);
      i := i + 1;
    }
    assert Vnodes(children)[..|children|] == Vnodes(children);
    NonTextNodes(res);
    KeysRight(children, isVList, index);
  }

  lemma NormalMeansApart(children: seq<Child>, i: nat, index: Option<string>)
    requires i < |children|
    ensures Normal(children, index) && i > 0
            ==> !(IsTextNode(Vnodes(children)[..i][i - 1]) && IsTextNode(Vnodes(children)[i]))
  {
    var vs := Vnodes(children);
    assert i > 0 ==> vs[..i][i - 1] == vs[i - 1];
    if i > 0 && NoAdjacentText(vs) {
      assert !(IsTextNode(vs[i - 1]) && IsTextNode(vs[i - 1 + 1]));
    }
  }

  /** What one more child contributes. */
  lemma OfNext(cs: seq<Child>, i: nat, isVList: bool, index: Option<string>)
    requires i < |cs|
    ensures var before, after := OfChildren(cs, i, isVList, index), OfChildren(cs, i + 1, isVList, index);
            match cs[i]
            case Empty => after == before
            case Primitive(t) => after == Join(before, OfText(t))
            case Node(v) => after == Join(before, OfNode(WithDefaultKey(v, isVList, index, i)))
            case Nested(list, vlist) =>
              after == Join(before, OfChildren(list, |list|, vlist, Some(NestedIndex(index, i))))
              && (list == [] ==> after == before)
  {
    hide Join, NestedIndex, WithDefaultKey;
    JoinNothing(OfChildren(cs, i, isVList, index));
  }

  /** A normal list goes on node by node, and its texts do not meet. */
  lemma NormalNext(cs: seq<Child>, i: nat, index: Option<string>)
    requires i < |cs| && Normal(cs, index)
    ensures cs[i].Node? && index.None? && Vnodes(cs)[..i + 1] == Vnodes(cs)[..i] + [cs[i].vnode]
    ensures i > 0 ==> |Vnodes(cs)[..i]| == i && !(IsTextNode(Vnodes(cs)[..i][i - 1]) && IsTextNode(cs[i].vnode))
    ensures |Vnodes(cs)[..i]| == i
  {
    NormalMeansApart(cs, i, index);
  }

  lemma SolidNext(cs: seq<Child>, i: nat)
    requires i < |cs|
    ensures Solid(cs) && cs[i].Node? ==> cs[i].vnode.text != Some("")
    ensures Solid(cs) && cs[i].Nested? ==> Solid(cs[i].list)
  {
  }

  /** One turn of the loop. */
  method NormalizeNext(children: seq<Child>, i: nat, isVList: bool, index: Option<string>, res: seq<VNode>)
    returns (r: seq<VNode>)
    requires i < |children| && NoAdjacentText(res) && OfNodes(res) == OfChildren(children, i, isVList, index)
    ensures NoAdjacentText(r) && OfNodes(r) == OfChildren(children, i + 1, isVList, index)
    ensures Normal(children, index) && res == Vnodes(children)[..i] ==> r == Vnodes(children)[..i + 1]
    ensures Solid(children) && AllSolid(res) ==> AllSolid(r)
    decreases children, 0
  {
    hide NoAdjacentText, Join, OfNodes, Solid, AllSolid, Normal, Vnodes, OfChildren, NestedIndex;
    r := res;
    OfNext(children, i, isVList, index);
    if Normal(children, index) {
      NormalNext(children, i, index);
    }
    SolidNext(children, i);
    var lastIsText := res != [] && IsTextNode(res[|res| - 1]);
    JoinNothing(OfNodes(res));
    match children[i]
    case Empty =>
    case Nested(list, vlist) =>
      if |list| > 0 {
        var more := NormalizeArrayChildren(list, vlist, Some(NestedIndex(index, i)));
        r := AppendMerged(res, more);
      }
    case Primitive(t) =>
      if lastIsText {
        Merged(res, t);
        r := res[|res| - 1 := TextVNode(res[|res| - 1].text.value + t)];
      } else if t != "" {
        Pushed(res, TextVNode(t));
        r := res + [TextVNode(t)];
      }
    case Node(v) =>
      if IsTextNode(v) && lastIsText {
        Merged(res, v.text.value);
        r := res[|res| - 1 := TextVNode(res[|res| - 1].text.value + v.text.value)];
      } else {
        var keyed := WithDefaultKey(v, isVList, index, i);
        Pushed(res, keyed);
        r := res + [keyed];
      }
  }
}
