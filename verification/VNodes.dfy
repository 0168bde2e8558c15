/** Virtual nodes, and the tree a virtual node stands for. */
module VNodes {
  import opened Common

  type Key = string

  /** The data object of a virtual node, as far as `sameVnode` and the module hooks look at it. */
  datatype Data = Data(attrs: Option<map<string, string>>)

  datatype Children = NoChildren | Children(list: seq<VNode>)

  datatype VNode = VNode(key: Option<Key>, tag: Option<string>, data: Option<Data>,
                         children: Children, text: Option<string>, isComment: bool)

  /** What reading `data && data.attrs && data.attrs.type` yields: `false`, `undefined` or a string. */
  datatype InputType = Absent | Undefined | Type(name: string)

  function InputTypeOf(v: VNode): InputType {
    if v.data.None? || v.data.value.attrs.None? then Absent
    else if "type" in v.data.value.attrs.value then Type(v.data.value.attrs.value["type"])
    else Undefined
  }

  predicate IsTextInputType(t: InputType) {
    t.Type? && t.name in {"text", "number", "password", "search", "email", "tel", "url"}
  }

  predicate SameInputType(a: VNode, b: VNode) {
    a.tag != Some("input") ||
    var ta, tb := InputTypeOf(a), InputTypeOf(b);
    ta == tb || (IsTextInputType(ta) && IsTextInputType(tb))
  }

  predicate SameVnode(a: VNode, b: VNode) {
    && a.key == b.key
    && a.tag == b.tag
    && a.isComment == b.isComment
    && a.data.Some? == b.data.Some?
    && SameInputType(a, b)
  }

  /** Being the same is an equivalence. */
  lemma SameVnodeEquivalence(a: VNode, b: VNode, c: VNode)
    ensures SameVnode(a, a) && (SameVnode(a, b) ==> SameVnode(b, a))
    ensures SameVnode(a, b) && SameVnode(b, c) ==> SameVnode(a, c)
  {
  }

  function TextVNode(s: string): VNode {
    VNode(None, None, None, NoChildren, Some(s), false)
  }

  /** Text and comment nodes carry a text and no children; an element carries at most one of the two. */
  ghost predicate WellFormed(v: VNode) {
    && (v.tag.None? ==> v.text.Some? && v.children.NoChildren?)
    && (v.tag.Some? && v.text.Some? ==> v.children.NoChildren?)
    && (v.children.Children? ==> forall i :: 0 <= i < |v.children.list| ==> WellFormed(v.children.list[i]))
  }

  /** No key is used by two nodes of the list. */
  ghost predicate UniqueKeys(vs: seq<VNode>) {
    forall i, j :: 0 <= i < j < |vs| && vs[i].key.Some? ==> vs[i].key != vs[j].key
  }

  /** What an update needs of the new tree: keys are unique in every child list. */
  ghost predicate Patchable(v: VNode) {
    v.children.Children? ==>
      UniqueKeys(v.children.list) && forall i :: 0 <= i < |v.children.list| ==> Patchable(v.children.list[i])
  }

  /** An element that carries an empty text. */
  predicate CarriesEmpty(v: VNode) {
    v.tag.Some? && v.text == Some("")
  }

  ghost predicate NoEmptyText(v: VNode) {
    && !CarriesEmpty(v)
    && (v.children.Children? ==> forall i :: 0 <= i < |v.children.list| ==> NoEmptyText(v.children.list[i]))
  }

  /** Same key, same kind of node: the pairs a keyed update promises to keep. */
  ghost predicate KeyedPair(a: VNode, b: VNode) {
    a.key.Some? && a.key == b.key && SameVnode(a, b)
  }

  // ----- what a virtual node denotes

  /** A document tree without node identities. */
  datatype Tree =
    | Element(tag: string, data: Option<Data>, kids: seq<Tree>)
    | Text(text: string)
    | Comment(text: string)

  /** The tree that rendering v from scratch yields. */
  ghost function Build(v: VNode): Tree
    requires WellFormed(v)
  {
    if v.tag.Some? then
      Element(v.tag.value, v.data,
              if v.children.Children? then
                seq(|v.children.list|, i requires 0 <= i < |v.children.list| => Build(v.children.list[i]))
              else if v.text.Some? then [Text(v.text.value)]
              else [])
    else if v.isComment then Comment(v.text.value)
    else Text(v.text.value)
  }

  /** The virtual nodes behind the document children of v: a text carried by an element counts as one text node. */
  ghost function KidVNodes(v: VNode): seq<VNode> {
    if v.children.Children? then v.children.list
    else if v.tag.Some? && v.text.Some? then [TextVNode(v.text.value)]
    else []
  }
}
