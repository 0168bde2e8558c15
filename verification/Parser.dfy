/** The template parser's two stacks: the tokenizer's open tags and the tree builder's open elements, which the
    tokenizer drives through its start and end callbacks. */
module Parser {
  import opened Common

  /** What the host says of tag names. */
  datatype Options = Options(lower: string -> string, isUnary: string -> bool, canBeLeftOpen: string -> bool,
                             isNonPhrasing: string -> bool, isPreTag: string -> bool, expectHTML: bool)

  /** What tokenizing yields, as far as the stacks are concerned: a start tag, an end tag, the end of the raw
      text of a script, style or textarea element, or text. */
  datatype Token = StartTag(tag: string, slash: bool, vPre: bool) | EndTag(tag: string) | RawTextEnd | Chars

  datatype Event = Start(tag: string, unary: bool, vPre: bool) | End(tag: string)

  // ----- well-bracketed callbacks

  /** The tags left open by a sequence of callbacks, if every end matches the innermost open tag. */
  ghost function Replay(es: seq<Event>): Option<seq<string>> {
    if es == [] then Some([])
    else
      var before := Replay(es[..|es| - 1]);
      if before.None? then None
      else match es[|es| - 1]
        case Start(t, unary, _) => Some(if unary then before.value else before.value + [t])
        case End(t) =>
          var open := before.value;
          if open != [] && open[|open| - 1] == t then Some(open[..|open| - 1]) else None
  }

  lemma ReplayNext(es: seq<Event>, e: Event)
    requires Replay(es).Some?
    ensures e.Start? ==> Replay(es + [e]) == Some(if e.unary then Replay(es).value else Replay(es).value + [e.tag])
    ensures e.End? && Replay(es).value != [] && Replay(es).value[|Replay(es).value| - 1] == e.tag ==>
              Replay(es + [e]) == Some(Replay(es).value[..|Replay(es).value| - 1])
  {
    assert (es + [e])[..|es|] == es;
  }

  /** The tags open after a sequence of callbacks. */
  ghost function OpenAfter(es: seq<Event>): seq<string> {
    if Replay(es).Some? then Replay(es).value else []
  }

  // ----- inPre

  /** The flag `inPre` after a sequence of callbacks. */
  ghost function InPreAfter(o: Options, es: seq<Event>): bool {
    if es == [] then false
    else
      var before := InPreAfter(o, es[..|es| - 1]);
      match es[|es| - 1]
      case Start(t, unary, _) => if unary then before && !o.isPreTag(t) else before || o.isPreTag(t)
      case End(t) => before && !o.isPreTag(t)
  }

  lemma InPreNext(o: Options, es: seq<Event>, e: Event)
    ensures InPreAfter(o, es + [e]) ==
            match e
            case Start(t, unary, _) =>
              if unary then InPreAfter(o, es) && !o.isPreTag(t) else InPreAfter(o, es) || o.isPreTag(t)
            case End(t) => InPreAfter(o, es) && !o.isPreTag(t)
  {
    assert (es + [e])[..|es|] == es;
  }

  ghost predicate PreOpen(o: Options, open: seq<string>) {
    exists i :: 0 <= i < |open| && o.isPreTag(open[i])
  }

  /** After the first n callbacks, inPre holds exactly inside a pre element. */
  ghost predicate RightAt(o: Options, es: seq<Event>, n: nat)
    requires n <= |es|
  {
    InPreAfter(o, es[..n]) <==> PreOpen(o, OpenAfter(es[..n]))
  }

  /** The n-th callback closes a pre element, by an end or as a unary start, while another one is open. */
  ghost predicate ClosesInnerPre(o: Options, es: seq<Event>, n: nat)
    requires n < |es|
  {
    && (es[n].End? || es[n].unary)
    && o.isPreTag(es[n].tag)
    && PreOpen(o, OpenAfter(es[..n + 1]))
  }

  lemma {:induction false} ReplayPrefix(es: seq<Event>, n: nat)
    requires Replay(es).Some? && n <= |es|
    ensures Replay(es[..n]).Some?
    decreases |es|
  {
    if n == |es| {
      assert es[..n] == es;
    } else {
      ReplayPrefix(es[..|es| - 1], n);
      assert es[..|es| - 1][..n] == es[..n];
    }
  }

  /** What one more callback leaves open. */
  lemma OpenSnoc(es: seq<Event>, e: Event)
    requires Replay(es + [e]).Some?
    ensures if e.Start? then OpenAfter(es + [e]) == OpenAfter(es) + if e.unary then [] else [e.tag]
            else OpenAfter(es) == OpenAfter(es + [e]) + [e.tag]
  {
    assert (es + [e])[..|es|] == es;
    var open := OpenAfter(es);
    if e.End? {
      assert open == open[..|open| - 1] + [e.tag];
    }
  }

  lemma OpenNext(es: seq<Event>, n: nat)
    requires n < |es| && Replay(es).Some?
    ensures var before, after := OpenAfter(es[..n]), OpenAfter(es[..n + 1]);
            if es[n].Start? then after == before + if es[n].unary then [] else [es[n].tag]
            else before == after + [es[n].tag]
  {
    hide Replay, OpenAfter;
    ReplayPrefix(es, n + 1);
    assert es[..n + 1] == es[..n] + [es[n]];
    OpenSnoc(es[..n], es[n]);
  }

  lemma PreOpenSnoc(o: Options, open: seq<string>, tag: string)
    ensures PreOpen(o, open + [tag]) <==> PreOpen(o, open) || o.isPreTag(tag)
    ensures open + [] == open
  {
    assert (open + [tag])[|open|] == tag && forall i :: 0 <= i < |open| ==> (open + [tag])[i] == open[i];
  }

  /** One callback from a right state leads to a right one exactly when it does not close an inner pre element. */
  lemma InPreStep(o: Options, es: seq<Event>, n: nat)
    requires n < |es| && Replay(es).Some? && RightAt(o, es, n)
    ensures RightAt(o, es, n + 1) <==> !ClosesInnerPre(o, es, n)
  {
    hide Replay, OpenAfter, InPreAfter, PreOpen;
    OpenNext(es, n);
    assert es[..n + 1] == es[..n] + [es[n]];
    InPreNext(o, es[..n], es[n]);
    PreOpenSnoc(o, OpenAfter(es[..n]), es[n].tag);
    PreOpenSnoc(o, OpenAfter(es[..n + 1]), es[n].tag);
  }

  lemma {:induction false} RightUpTo(o: Options, es: seq<Event>, n: nat)
    requires n <= |es| && Replay(es).Some? && forall k :: 0 <= k < n ==> !ClosesInnerPre(o, es, k)
    ensures RightAt(o, es, n)
  {
    if n == 0 {
      assert es[..0] == [];
    } else {
      RightUpTo(o, es, n - 1);
      InPreStep(o, es, n - 1);
    }
  }

  /** Over any run of callbacks, inPre holds exactly inside pre elements, at every point, if and only if no pre
      element is closed while another is open. */
  lemma InPreExact(o: Options, es: seq<Event>)
    requires Replay(es).Some?
    ensures (forall n :: 0 <= n <= |es| ==> RightAt(o, es, n))
            <==> (forall n :: 0 <= n < |es| ==> !ClosesInnerPre(o, es, n))
  {
    hide RightAt, ClosesInnerPre, Replay;
    if forall n :: 0 <= n < |es| ==> !ClosesInnerPre(o, es, n) {
      forall n | 0 <= n <= |es| ensures RightAt(o, es, n) {
        RightUpTo(o, es, n);
      }
    }
    if forall n :: 0 <= n <= |es| ==> RightAt(o, es, n) {
      forall n | 0 <= n < |es| ensures !ClosesInnerPre(o, es, n) {
        InPreStep(o, es, n);
        assert RightAt(o, es, n + 1);
      }
    }
  }

  // ----- v-pre

  /** For each open tag, whether its start callback carried v-pre. */
  ghost function Flags(es: seq<Event>): seq<bool> {
    if es == [] then []
    else
      var before := Flags(es[..|es| - 1]);
      match es[|es| - 1]
      case Start(_, unary, vPre) => if unary then before else before + [vPre]
      case End(_) => if before == [] then [] else before[..|before| - 1]
  }

  lemma FlagsNext(es: seq<Event>, e: Event)
    ensures e.Start? ==> Flags(es + [e]) == if e.unary then Flags(es) else Flags(es) + [e.vPre]
    ensures e.End? && Flags(es) != [] ==> Flags(es + [e]) == Flags(es)[..|Flags(es)| - 1]
  {
    assert (es + [e])[..|es|] == es;
  }

  // ----- the tree builder

  /** An open element: its tag, and whether it is the one that carries v-pre. */
  datatype Element = Element(tag: string, pre: bool)

  ghost function TagsOf(s: seq<Element>): seq<string> {
    seq(|s|, i requires 0 <= i < |s| => s[i].tag)
  }

  ghost predicate HasPre(s: seq<Element>) {
    exists i :: 0 <= i < |s| && s[i].pre
  }

  ghost predicate AtMostOnePre(s: seq<Element>) {
    forall i, j :: 0 <= i < |s| && 0 <= j < |s| && s[i].pre && s[j].pre ==> i == j
  }

  /** The element that counts for v-pre is the outermost one whose start carried it. */
  ghost predicate Outermost(s: seq<Element>, flags: seq<bool>) {
    |s| == |flags| && forall i :: 0 <= i < |s| ==> (s[i].pre <==> flags[i] && true !in flags[..i])
  }

  /** So there is one exactly when some start of an open element carried it. */
  lemma {:induction false} OutermostFound(s: seq<Element>, flags: seq<bool>)
    requires Outermost(s, flags)
    ensures HasPre(s) <==> true in flags
  {
    if s == [] {
    } else {
      var n := |s| - 1;
      assert forall i :: 0 <= i < n ==> flags[..n][..i] == flags[..i];
      OutermostFound(s[..n], flags[..n]);
      assert flags == flags[..n] + [flags[n]];
      assert HasPre(s[..n]) ==> exists i :: 0 <= i < n && s[i].pre;
    }
  }

  lemma OutermostLess(s: seq<Element>, flags: seq<bool>)
    requires Outermost(s, flags) && s != []
    ensures Outermost(s[..|s| - 1], flags[..|flags| - 1])
  {
    var n := |s| - 1;
    forall i | 0 <= i < n ensures s[..n][i].pre <==> flags[..n][i] && true !in flags[..n][..i] {
      assert flags[..n][..i] == flags[..i];
    }
  }

  lemma OutermostNext(s: seq<Element>, flags: seq<bool>, tag: string, vPre: bool)
    requires Outermost(s, flags)
    ensures Outermost(s + [Element(tag, !HasPre(s) && vPre)], flags + [vPre])
    ensures s != [] ==> Outermost(s[..|s| - 1], flags[..|flags| - 1])
  {
    hide HasPre;
    OutermostFound(s, flags);
    var s', flags' := s + [Element(tag, !HasPre(s) && vPre)], flags + [vPre];
    forall i | 0 <= i < |s'| ensures s'[i].pre <==> flags'[i] && true !in flags'[..i] {
      assert flags'[..i] == flags[..i];
      assert flags[..|flags|] == flags;
    }
    if s != [] {
      OutermostLess(s, flags);
    }
  }

  class TreeBuilder {
    const options: Options
    var stack: seq<Element>
    var inVPre: bool
    var inPre: bool

    /** inVPre holds iff some open element, and then exactly one, carries v-pre; and inPre only inside a pre tag. */
    ghost predicate Valid()
      reads this
    {
      && (inVPre <==> HasPre(stack)) && AtMostOnePre(stack)
      && (inPre ==> exists i :: 0 <= i < |stack| && options.isPreTag(stack[i].tag))
    }

    constructor (options: Options)
      ensures Valid() && stack == [] && this.options == options
    {
      this.options := options;
      stack, inVPre, inPre := [], false, false;
    }

    /** `closeElement`. */
    method CloseElement(element: Element)
      modifies this`inVPre, this`inPre
      ensures inVPre == (old(inVPre) && !element.pre)
      ensures inPre == (old(inPre) && !options.isPreTag(element.tag))
    {
      if element.pre {
        inVPre := false;
      }
      if options.isPreTag(element.tag) {
        inPre := false;
      }
    }

    /** The start callback; vPre says whether the tag has a v-pre attribute. */
    method Start(tag: string, vPre: bool, unary: bool)
      requires Valid()
      modifies this
      ensures Valid()
      ensures stack == if unary then old(stack) else old(stack) + [Element(tag, !old(inVPre) && vPre)]
      ensures unary ==> inPre == (old(inPre) && !options.isPreTag(tag))
      ensures !unary ==> inPre == (old(inPre) || options.isPreTag(tag))
    {
      var element := Element(tag, false);
      if !inVPre {
        element := element.(pre := vPre);
        if element.pre {
          inVPre := true;
        }
      }
      if options.isPreTag(element.tag) {
        inPre := true;
      }
      if !unary {
        ghost var s := stack;
        stack := stack + [element];
        assert stack[|s|] == element && forall i :: 0 <= i < |s| ==> stack[i] == s[i];
      } else {
        CloseElement(element);
      }
    }

    /** The end callback: it closes its own innermost element, whatever the tag. */
    method End()
      requires Valid() && stack != []
      modifies this
      ensures Valid() && stack == old(stack)[..|old(stack)| - 1]
      ensures inPre == (old(inPre) && !options.isPreTag(old(stack)[|old(stack)| - 1].tag))
    {
      var element := stack[|stack| - 1];
      ghost var s := stack;
      stack := stack[..|stack| - 1];
      CloseElement(element);
      assert forall i :: 0 <= i < |stack| ==> stack[i] == s[i];
    }
  }

  /** Some open element is a pre element. */
  ghost predicate InsidePre(o: Options, s: seq<Element>) {
    exists i :: 0 <= i < |s| && o.isPreTag(s[i].tag)
  }

  lemma InsideIsOpen(o: Options, s: seq<Element>)
    ensures InsidePre(o, s) <==> PreOpen(o, TagsOf(s))
  {
    assert forall i :: 0 <= i < |s| ==> TagsOf(s)[i] == s[i].tag;
  }

  /** `<pre><pre/>`: the self-closing tag clears inPre although the outer element is open. */
  method UnaryPreClears(o: Options) returns (tree: TreeBuilder)
    requires o.isPreTag("pre")
    ensures tree.Valid() && tree.options == o && !tree.inPre && InsidePre(o, tree.stack)
  {
    tree := new TreeBuilder(o);
    tree.Start("pre", false, false);
    tree.Start("pre", false, true);
    assert tree.stack[0].tag == "pre";
  }

  /** `<pre><pre></pre>`: so does the end of the inner element. */
  method InnerPreClears(o: Options) returns (tree: TreeBuilder)
    requires o.isPreTag("pre")
    ensures tree.Valid() && tree.options == o && !tree.inPre && InsidePre(o, tree.stack)
  {
    tree := new TreeBuilder(o);
    tree.Start("pre", false, false);
    tree.Start("pre", false, false);
    assert tree.stack[1].tag == "pre";
    tree.End();
    assert tree.stack[0].tag == "pre";
  }

  // ----- the tokenizer

  /** An open tag, with its lower-case name. */
  datatype Open = Open(tag: string, lower: string)

  ghost function OpenTags(s: seq<Open>): seq<string> {
    seq(|s|, i requires 0 <= i < |s| => s[i].tag)
  }

  /** The position of the innermost open tag of that name, or -1. */
  ghost function Innermost(s: seq<Open>, lower: string): (pos: int)
    ensures -1 <= pos < |s|
  {
    if s == [] then -1 else if s[|s| - 1].lower == lower then |s| - 1 else Innermost(s[..|s| - 1], lower)
  }

  /** The end callbacks for the open tags above position pos, innermost first. */
  ghost function Ends(s: seq<Open>, pos: nat): seq<Event> {
    if |s| <= pos then [] else [Event.End(s[|s| - 1].tag)] + Ends(s[..|s| - 1], pos)
  }

  /** The callbacks for an end tag that matches nothing: `</br>` is a line break, `</p>` an empty paragraph. */
  ghost function Unmatched(tag: string, lower: string): seq<Event> {
    if lower == "br" then [Event.Start(tag, true, false)]
    else if lower == "p" then [Event.Start(tag, false, false), Event.End(tag)]
    else []
  }

  /** The callbacks of an end tag. */
  ghost function EndCalls(s: seq<Open>, tag: string, lower: string): seq<Event> {
    if Innermost(s, lower) >= 0 then Ends(s, Innermost(s, lower)) else Unmatched(tag, lower)
  }

  /** How many open tags a start tag closes by implication. */
  ghost function ImpliedCount(o: Options, s: seq<Open>, tag: string): (n: nat)
    ensures n <= |s|
  {
    if !o.expectHTML then 0
    else
      var a := if s != [] && s[|s| - 1].tag == "p" && o.isNonPhrasing(tag) then 1 else 0;
      var rest := s[..|s| - a];
      a + if o.canBeLeftOpen(tag) && rest != [] && rest[|rest| - 1].tag == tag then 1 else 0
  }

  ghost function TokenCalls(o: Options, s: seq<Open>, token: Token): seq<Event> {
    match token
    case StartTag(tag, slash, vPre) =>
      Ends(s, |s| - ImpliedCount(o, s, tag)) + [Event.Start(tag, o.isUnary(tag) || slash, vPre)]
    case EndTag(tag) => EndCalls(s, tag, o.lower(tag))
    case RawTextEnd =>
      if s == [] then [] else EndCalls(s, o.lower(s[|s| - 1].tag), o.lower(o.lower(s[|s| - 1].tag)))
    case Chars => []
  }

  /** What an end tag leaves open. */
  ghost function AfterEnd(s: seq<Open>, lower: string): seq<Open> {
    if Innermost(s, lower) >= 0 then s[..Innermost(s, lower)] else s
  }

  ghost function TokenStack(o: Options, s: seq<Open>, token: Token): seq<Open> {
    match token
    case StartTag(tag, slash, _) =>
      s[..|s| - ImpliedCount(o, s, tag)] + if o.isUnary(tag) || slash then [] else [Open(tag, o.lower(tag))]
    case EndTag(tag) => AfterEnd(s, o.lower(tag))
    case RawTextEnd => if s == [] then [] else AfterEnd(s, o.lower(o.lower(s[|s| - 1].tag)))
    case Chars => s
  }

  ghost function Callbacks(o: Options, s: seq<Open>, tokens: seq<Token>): seq<Event>
    decreases |tokens|
  {
    if tokens == [] then []
    else TokenCalls(o, s, tokens[0]) + Callbacks(o, TokenStack(o, s, tokens[0]), tokens[1..])
  }

  ghost function StackAfter(o: Options, s: seq<Open>, tokens: seq<Token>): seq<Open>
    decreases |tokens|
  {
    if tokens == [] then s else StackAfter(o, TokenStack(o, s, tokens[0]), tokens[1..])
  }

  lemma {:induction false} InnermostIs(s: seq<Open>, lower: string)
    ensures Innermost(s, lower) >= 0 ==> s[Innermost(s, lower)].lower == lower
    ensures forall i :: Innermost(s, lower) < i < |s| ==> s[i].lower != lower
  {
    if s == [] {
    } else {
      InnermostIs(s[..|s| - 1], lower);
    }
  }

  /** From `before` to `after`, either nothing was closed because no open tag has the name, or the innermost open
      tag that has it was closed with everything inside it. */
  ghost predicate Closes(before: seq<Open>, after: seq<Open>, lower: string) {
    if exists i :: 0 <= i < |before| && before[i].lower == lower then
      && |after| < |before| && after == before[..|after|] && before[|after|].lower == lower
      && forall i :: |after| < i < |before| ==> before[i].lower != lower
    else after == before
  }

  /** Closing down to the innermost open tag of a name determines what is left open. */
  lemma ClosesIs(before: seq<Open>, after: seq<Open>, lower: string)
    requires Closes(before, after, lower)
    ensures after == AfterEnd(before, lower)
    ensures |after| < |before| ==> |after| == Innermost(before, lower)
    ensures |after| >= |before| ==> Innermost(before, lower) < 0
  {
    InnermostIs(before, lower);
    if i :| 0 <= i < |before| && before[i].lower == lower {
      assert Innermost(before, lower) >= 0;
    }
  }

  lemma EndsStep(s: seq<Open>, i: nat, pos: nat)
    requires pos <= i < |s|
    ensures Ends(s[..i + 1], pos) == [Event.End(s[i].tag)] + Ends(s[..i], pos)
    ensures s[..i + 1][i] == s[i] && s[..i + 1][..i] == s[..i]
  {
    assert s[..i + 1][..i] == s[..i];
  }

  lemma EndsNone(s: seq<Open>, pos: nat)
    requires |s| <= pos
    ensures Ends(s, pos) == [] && s[..|s|] == s
  {
  }

  /** The end tag of the innermost open tag closes just that. */
  lemma TopCloses(s: seq<Open>, o: Options, after: seq<Open>)
    requires s != [] && s[|s| - 1].lower == o.lower(s[|s| - 1].tag)
    requires Closes(s, after, o.lower(s[|s| - 1].tag))
    ensures after == s[..|s| - 1]
  {
  }

  lemma {:induction false} EndsSplit(s: seq<Open>, pos: nat, mid: nat)
    requires pos <= mid <= |s|
    ensures Ends(s, mid) + Ends(s[..mid], pos) == Ends(s, pos)
    decreases |s|
  {
    if |s| > mid {
      EndsSplit(s[..|s| - 1], pos, mid);
      assert s[..|s| - 1][..mid] == s[..mid];
    } else {
      assert s[..mid] == s;
    }
  }

  // ----- what the callbacks of a token are

  lemma EndsOfFew(s: seq<Open>)
    ensures Ends(s, |s|) == []
    ensures |s| > 0 ==> Ends(s, |s| - 1) == [Event.End(s[|s| - 1].tag)]
    ensures |s| > 1 ==> Ends(s, |s| - 2) == [Event.End(s[|s| - 1].tag), Event.End(s[|s| - 2].tag)]
  {
    if |s| > 1 {
      assert Ends(s[..|s| - 1], |s| - 2) == [Event.End(s[|s| - 2].tag)] + Ends(s[..|s| - 1][..|s| - 2], |s| - 2);
    }
  }

  lemma ImpliedIs(o: Options, s: seq<Open>, tag: string)
    ensures var n := |s|;
            var inP := o.expectHTML && n > 0 && s[n - 1].tag == "p" && o.isNonPhrasing(tag);
            var again := o.expectHTML && n > 0 && s[n - 1].tag == tag && o.canBeLeftOpen(tag);
            var next := inP && n > 1 && s[n - 2].tag == tag && o.canBeLeftOpen(tag);
            ImpliedCount(o, s, tag) == if inP then (if next then 2 else 1) else if again then 1 else 0
  {
    var n := |s|;
    if n > 1 {
      assert s[..n - 1][n - 2] == s[n - 2];
    }
  }

  lemma Literal(x: Event, y: Event, z: Event)
    ensures [] + [z] == [z] && [x] + [z] == [x, z] && [x, y] + [z] == [x, y, z]
  {
  }

  lemma StartTagStack(o: Options, s: seq<Open>, tag: string, slash: bool, vPre: bool)
    ensures var stack := TokenStack(o, s, StartTag(tag, slash, vPre));
            if o.isUnary(tag) || slash then stack <= s
            else stack != [] && stack[|stack| - 1] == Open(tag, o.lower(tag)) && stack[..|stack| - 1] <= s
  {
    hide ImpliedCount;
    var kept := s[..|s| - ImpliedCount(o, s, tag)];
    assert kept + [] == kept && (kept + [Open(tag, o.lower(tag))])[..|kept|] == kept;
  }

  /** The callbacks of a start tag: in HTML, a p that is innermost is closed by a tag that is no phrasing content, and
      then a tag that can be left open by one of the same name; nothing else is. */
  lemma StartTagCalls(o: Options, s: seq<Open>, tag: string, slash: bool, vPre: bool)
    ensures var n := |s|;
            var start := Event.Start(tag, o.isUnary(tag) || slash, vPre);
            var inP := o.expectHTML && n > 0 && s[n - 1].tag == "p" && o.isNonPhrasing(tag);
            var again := o.expectHTML && n > 0 && s[n - 1].tag == tag && o.canBeLeftOpen(tag);
            var next := inP && n > 1 && s[n - 2].tag == tag && o.canBeLeftOpen(tag);
            && (!inP && !again ==> TokenCalls(o, s, StartTag(tag, slash, vPre)) == [start])
            && (!inP && again ==> TokenCalls(o, s, StartTag(tag, slash, vPre)) == [Event.End(tag), start])
            && (inP && !next ==> TokenCalls(o, s, StartTag(tag, slash, vPre)) == [Event.End("p"), start])
            && (inP && next ==> TokenCalls(o, s, StartTag(tag, slash, vPre)) == [Event.End("p"), Event.End(tag), start])
    ensures var stack := TokenStack(o, s, StartTag(tag, slash, vPre));
            if o.isUnary(tag) || slash then stack <= s
            else stack != [] && stack[|stack| - 1] == Open(tag, o.lower(tag)) && stack[..|stack| - 1] <= s
  {
    hide Ends, ImpliedCount;
    EndsOfFew(s);
    ImpliedIs(o, s, tag);
    var start := Event.Start(tag, o.isUnary(tag) || slash, vPre);
    assert TokenCalls(o, s, StartTag(tag, slash, vPre)) == Ends(s, |s| - ImpliedCount(o, s, tag)) + [start];
    Literal(Event.End("p"), Event.End(tag), start);
    Literal(Event.End(tag), Event.End(tag), start);
    StartTagStack(o, s, tag, slash, vPre);
  }

  lemma {:induction false} EndsAt(s: seq<Open>, pos: nat)
    requires pos <= |s|
    ensures |Ends(s, pos)| == |s| - pos
    ensures forall k :: 0 <= k < |s| - pos ==> Ends(s, pos)[k] == Event.End(s[|s| - 1 - k].tag)
  {
    if |s| > pos {
      EndsAt(s[..|s| - 1], pos);
    }
  }

  /** The callbacks of an end tag. */
  lemma EndTagCalls(o: Options, s: seq<Open>, tag: string)
    ensures (forall i :: 0 <= i < |s| ==> s[i].lower != o.lower(tag)) ==>
              && TokenStack(o, s, EndTag(tag)) == s
              && (o.lower(tag) == "br" ==> TokenCalls(o, s, EndTag(tag)) == [Event.Start(tag, true, false)])
              && (o.lower(tag) == "p" ==>
                    TokenCalls(o, s, EndTag(tag)) == [Event.Start(tag, false, false), Event.End(tag)])
              && (o.lower(tag) != "br" && o.lower(tag) != "p" ==> TokenCalls(o, s, EndTag(tag)) == [])
    ensures forall i ::
              0 <= i < |s| && s[i].lower == o.lower(tag) && (forall j :: i < j < |s| ==> s[j].lower != o.lower(tag)) ==>
                && TokenStack(o, s, EndTag(tag)) == s[..i]
                && |TokenCalls(o, s, EndTag(tag))| == |s| - i
                && forall k :: 0 <= k < |s| - i ==> TokenCalls(o, s, EndTag(tag))[k] == Event.End(s[|s| - 1 - k].tag)
  {
    hide Ends;
    var pos := Innermost(s, o.lower(tag));
    InnermostIs(s, o.lower(tag));
    if pos >= 0 {
      EndsAt(s, pos);
    }
  }

  /** The end of a raw text closes its element; text calls back nothing here. */
  lemma TextCalls(o: Options, s: seq<Open>)
    ensures TokenCalls(o, s, Chars) == [] && TokenStack(o, s, Chars) == s
    ensures s == [] ==> TokenCalls(o, s, RawTextEnd) == [] && TokenStack(o, s, RawTextEnd) == []
    ensures s != [] && s[|s| - 1].lower == o.lower(o.lower(s[|s| - 1].tag)) ==>
              && TokenCalls(o, s, RawTextEnd) == [Event.End(s[|s| - 1].tag)]
              && TokenStack(o, s, RawTextEnd) == s[..|s| - 1]
  {
    EndsOfFew(s);
  }

  // ----- which tags may be where

  /** What HTML says: the p element exists, and can be left open. */
  ghost predicate Html(o: Options) {
    o.expectHTML && o.canBeLeftOpen("p") && o.lower("p") == "p"
  }

  /** A tag may be opened inside these: a tag that can be left open not directly inside one of its name, and only
      phrasing content directly inside a p. */
  ghost predicate MayOpen(o: Options, open: seq<string>, tag: string) {
    open != [] ==>
      && (o.canBeLeftOpen(tag) ==> open[|open| - 1] != tag)
      && (open[|open| - 1] == "p" ==> !o.isNonPhrasing(tag))
  }

  ghost predicate WellPlaced(o: Options, open: seq<string>) {
    forall i :: 0 <= i < |open| ==> MayOpen(o, open[..i], open[i])
  }

  /** If the n-th callback is a start, its tag may be opened there. A line break for an end tag is not looked at. */
  ghost predicate StartFits(o: Options, es: seq<Event>, n: nat)
    requires n < |es|
  {
    es[n].Start? && o.lower(es[n].tag) != "br" ==> MayOpen(o, OpenAfter(es[..n]), es[n].tag)
  }

  ghost predicate AllFit(o: Options, es: seq<Event>, from: nat) {
    forall n :: from <= n < |es| ==> StartFits(o, es, n)
  }

  lemma WellPlacedNext(o: Options, open: seq<string>, tag: string)
    requires WellPlaced(o, open)
    ensures MayOpen(o, open, tag) ==> WellPlaced(o, open + [tag])
    ensures forall n :: 0 <= n <= |open| ==> WellPlaced(o, open[..n])
  {
    hide MayOpen;
    var open' := open + [tag];
    assert forall i :: 0 <= i <= |open| ==> open'[..i] == open[..i];
    assert open[..|open|] == open;
    forall n | 0 <= n <= |open| ensures WellPlaced(o, open[..n]) {
      assert forall i :: 0 <= i < n ==> open[..n][..i] == open[..i];
    }
  }

  /** Once what a start tag implies is closed, it may be opened. */
  lemma ImpliedFits(o: Options, s: seq<Open>, tag: string)
    requires Html(o) && WellPlaced(o, OpenTags(s))
    ensures MayOpen(o, OpenTags(s[..|s| - ImpliedCount(o, s, tag)]), tag)
  {
    var open := OpenTags(s);
    assert |open| == |s|;
    if |s| > 1 {
      assert MayOpen(o, open[..|s| - 1], open[|s| - 1]);
    }
    if |s| > 2 {
      assert MayOpen(o, open[..|s| - 2], open[|s| - 2]);
    }
  }

  lemma AllFitNext(o: Options, es: seq<Event>, from: nat, e: Event)
    requires AllFit(o, es, from) && from <= |es|
    requires e.Start? && o.lower(e.tag) != "br" ==> MayOpen(o, OpenAfter(es), e.tag)
    ensures AllFit(o, es + [e], from)
  {
    hide MayOpen, OpenAfter;
    var es' := es + [e];
    forall n | from <= n < |es'| ensures StartFits(o, es', n) {
      assert es'[..n] == es[..n];
      assert es[..|es|] == es;
      assert n < |es| ==> StartFits(o, es, n);
    }
  }

  lemma OneEnd(o: Options, es: seq<Event>, from: nat, s: seq<Open>)
    requires Replay(es) == Some(OpenTags(s)) && s != [] && AllFit(o, es, from) && from <= |es|
    ensures Replay(es + [Event.End(s[|s| - 1].tag)]) == Some(OpenTags(s[..|s| - 1]))
    ensures AllFit(o, es + [Event.End(s[|s| - 1].tag)], from)
  {
    hide AllFit, Replay;
    var e := Event.End(s[|s| - 1].tag);
    ReplayNext(es, e);
    AllFitNext(o, es, from, e);
    assert OpenTags(s)[..|s| - 1] == OpenTags(s[..|s| - 1]);
  }

  lemma EndsFirst(es: seq<Event>, s: seq<Open>, pos: nat)
    requires pos < |s|
    ensures es + Ends(s, pos) == es + [Event.End(s[|s| - 1].tag)] + Ends(s[..|s| - 1], pos)
    ensures s[..|s| - 1][..pos] == s[..pos]
  {
    var e, rest := Event.End(s[|s| - 1].tag), Ends(s[..|s| - 1], pos);
    hide Ends;
    assert es + ([e] + rest) == es + [e] + rest;
  }

  /** End callbacks leave open what they should. */
  lemma {:induction false} AfterEnds(o: Options, es: seq<Event>, from: nat, s: seq<Open>, pos: nat)
    requires Replay(es) == Some(OpenTags(s)) && pos <= |s| && AllFit(o, es, from) && from <= |es|
    ensures Replay(es + Ends(s, pos)) == Some(OpenTags(s[..pos])) && AllFit(o, es + Ends(s, pos), from)
    decreases |s|
  {
    hide AllFit, Replay, Ends, OpenTags;
    if |s| > pos {
      OneEnd(o, es, from, s);
      AfterEnds(o, es + [Event.End(s[|s| - 1].tag)], from, s[..|s| - 1], pos);
      EndsFirst(es, s, pos);
    } else {
      EndsNone(s, pos);
      assert es + [] == es;
    }
  }

  lemma StartFitsNext(o: Options, es: seq<Event>, from: nat, s: seq<Open>, kept: nat, tag: string, unary: bool,
                      vPre: bool)
    requires Html(o) && Replay(es) == Some(OpenTags(s)) && WellPlaced(o, OpenTags(s))
    requires AllFit(o, es, from) && from <= |es| && kept == |s| - ImpliedCount(o, s, tag)
    ensures WellPlaced(o, OpenTags(s[..kept] + if unary then [] else [Open(tag, o.lower(tag))]))
    ensures AllFit(o, es + (Ends(s, kept) + [Event.Start(tag, unary, vPre)]), from)
  {
    hide AllFit, Replay, WellPlaced, MayOpen, Ends, ImpliedCount;
    var start := Event.Start(tag, unary, vPre);
    AfterEnds(o, es, from, s, kept);
    ImpliedFits(o, s, tag);
    AllFitNext(o, es + Ends(s, kept), from, start);
    assert es + (Ends(s, kept) + [start]) == es + Ends(s, kept) + [start];
    WellPlacedNext(o, OpenTags(s), tag);
    assert OpenTags(s[..kept]) == OpenTags(s)[..kept];
    WellPlacedNext(o, OpenTags(s[..kept]), tag);
    assert OpenTags(s[..kept] + [Open(tag, o.lower(tag))]) == OpenTags(s[..kept]) + [tag];
    assert s[..kept] + [] == s[..kept];
  }

  lemma UnmatchedFits(o: Options, es: seq<Event>, from: nat, open: seq<string>, tag: string)
    requires Html(o) && Replay(es) == Some(open) && AllFit(o, es, from) && from <= |es|
    requires open != [] ==> o.lower(open[|open| - 1]) != o.lower(tag)
    ensures AllFit(o, es + Unmatched(tag, o.lower(tag)), from)
  {
    hide AllFit, Replay;
    if o.lower(tag) == "br" {
      AllFitNext(o, es, from, Event.Start(tag, true, false));
    } else if o.lower(tag) == "p" {
      AllFitNext(o, es, from, Event.Start(tag, false, false));
      AllFitNext(o, es + [Event.Start(tag, false, false)], from, Event.End(tag));
      assert es + [Event.Start(tag, false, false), Event.End(tag)]
          == es + [Event.Start(tag, false, false)] + [Event.End(tag)];
    } else {
      assert es + [] == es;
    }
  }

  lemma EndFits(o: Options, es: seq<Event>, from: nat, s: seq<Open>, tag: string)
    requires Html(o) && Replay(es) == Some(OpenTags(s)) && WellPlaced(o, OpenTags(s))
    requires forall i :: 0 <= i < |s| ==> s[i].lower == o.lower(s[i].tag)
    requires AllFit(o, es, from) && from <= |es|
    ensures WellPlaced(o, OpenTags(AfterEnd(s, o.lower(tag))))
    ensures AllFit(o, es + EndCalls(s, tag, o.lower(tag)), from)
  {
    hide AllFit, Replay, WellPlaced, Ends;
    var pos := Innermost(s, o.lower(tag));
    InnermostIs(s, o.lower(tag));
    if pos >= 0 {
      AfterEnds(o, es, from, s, pos);
      WellPlacedNext(o, OpenTags(s), tag);
      assert OpenTags(s[..pos]) == OpenTags(s)[..pos];
    } else {
      assert s != [] ==> OpenTags(s)[|s| - 1] == s[|s| - 1].tag;
      UnmatchedFits(o, es, from, OpenTags(s), tag);
    }
  }

  /** A token keeps every tag where it may be. */
  lemma TokenFits(o: Options, es: seq<Event>, from: nat, s: seq<Open>, token: Token)
    requires Html(o) && Replay(es) == Some(OpenTags(s)) && WellPlaced(o, OpenTags(s))
    requires forall i :: 0 <= i < |s| ==> s[i].lower == o.lower(s[i].tag)
    requires AllFit(o, es, from) && from <= |es|
    ensures WellPlaced(o, OpenTags(TokenStack(o, s, token))) && AllFit(o, es + TokenCalls(o, s, token), from)
  {
    hide AllFit, Replay, WellPlaced, MayOpen, Ends, Innermost;
    match token
    case StartTag(tag, slash, vPre) =>
      var kept, unary := |s| - ImpliedCount(o, s, tag), o.isUnary(tag) || slash;
      StartFitsNext(o, es, from, s, kept, tag, unary, vPre);
    case EndTag(tag) =>
      EndFits(o, es, from, s, tag);
    case RawTextEnd =>
      if s != [] {
        EndFits(o, es, from, s, o.lower(s[|s| - 1].tag));
      } else {
        assert es + [] == es;
      }
    case Chars =>
      assert es + [] == es;
  }

  class Tokenizer {
    const options: Options
    const tree: TreeBuilder
    var stack: seq<Open>
    var lastTag: Option<string>
    ghost var events: seq<Event>     // the callbacks made so far

    /** The two stacks hold the same tags, the callbacks so far are well bracketed and leave just these open, and the
        builder's inPre is what they make it. */
    ghost predicate Mirrored(open: seq<Open>)
      reads this`events, tree
    {
      && tree.Valid() && tree.options == options
      && TagsOf(tree.stack) == OpenTags(open)
      && Replay(events) == Some(OpenTags(open))
      && tree.inPre == InPreAfter(options, events)
      && Outermost(tree.stack, Flags(events))
    }

    ghost predicate Valid()
      reads this, tree
    {
      && Mirrored(stack)
      && (forall i :: 0 <= i < |stack| ==> stack[i].lower == options.lower(stack[i].tag))
      && lastTag == (if stack == [] then None else Some(stack[|stack| - 1].tag))
    }

    constructor (options: Options)
      ensures Valid() && fresh(tree) && stack == [] && events == [] && this.options == options
    {
      this.options := options;
      tree := new TreeBuilder(options);
      stack, lastTag, events := [], None, [];
      new;
      assert TagsOf(tree.stack) == OpenTags(stack);
    }

    /** `options.start(tag, ..., unary)`. */
    method CallStart(tag: string, vPre: bool, unary: bool, ghost open: seq<Open>)
      requires Mirrored(open)
      modifies tree, this`events
      ensures Mirrored(if unary then open else open + [Open(tag, options.lower(tag))])
      ensures events == old(events) + [Event.Start(tag, unary, vPre)]
    {
      hide Replay, InPreAfter, Flags, Outermost, HasPre, AtMostOnePre;
      ReplayNext(events, Event.Start(tag, unary, vPre));
      InPreNext(options, events, Event.Start(tag, unary, vPre));
      FlagsNext(events, Event.Start(tag, unary, vPre));
      OutermostNext(tree.stack, Flags(events), tag, vPre);
      events := events + [Event.Start(tag, unary, vPre)];
      tree.Start(tag, vPre, unary);
      ghost var open' := open + [Open(tag, options.lower(tag))];
      assert OpenTags(open') == OpenTags(open) + [tag];
      assert !unary ==> TagsOf(tree.stack) == TagsOf(old(tree.stack)) + [tag];
    }

    /** `options.end(tag, ...)`. */
    method CallEnd(tag: string, ghost open: seq<Open>)
      requires Mirrored(open) && open != [] && open[|open| - 1].tag == tag
      modifies tree, this`events
      ensures Mirrored(open[..|open| - 1])
      ensures events == old(events) + [Event.End(tag)]
    {
      hide Flags, Outermost, HasPre, AtMostOnePre;
      assert OpenTags(open)[|open| - 1] == tag;
      assert |TagsOf(tree.stack)| == |open|;
      FlagsNext(events, Event.End(tag));
      OutermostNext(tree.stack, Flags(events), tag, false);
      FlagsShown();
      ReplayNext(events, Event.End(tag));
      InPreNext(options, events, Event.End(tag));
      events := events + [Event.End(tag)];
      tree.End();
      assert OpenTags(open[..|open| - 1]) == OpenTags(open)[..|open| - 1];
      assert TagsOf(tree.stack) == TagsOf(old(tree.stack))[..|open| - 1];
    }

    /** The search of `parseEndTag`: the innermost open tag of that name, or -1. */
    method FindOpen(lower: string) returns (pos: int)
      ensures -1 <= pos < |stack|
      ensures pos >= 0 ==> stack[pos].lower == lower
      ensures forall i :: pos < i < |stack| ==> stack[i].lower != lower
    {
      pos := |stack| - 1;
      while pos >= 0 && stack[pos].lower != lower
        invariant -1 <= pos < |stack|
        invariant forall i :: pos < i < |stack| ==> stack[i].lower != lower
      {
        pos := pos - 1;
      }
    }

    /** The closing part of `parseEndTag`: all open tags from the innermost down to position pos. */
    method CloseDownTo(pos: nat)
      requires Valid() && pos <= |stack|
      modifies this`stack, this`lastTag, this`events, tree
      ensures Valid() && stack == old(stack)[..pos] && events == old(events) + Ends(old(stack), pos)
    {
      hide Mirrored, Ends;
      var i := |stack| - 1;
      assert stack[..|stack|] == stack;
      while i >= pos
        invariant pos - 1 <= i < |stack| && Mirrored(stack[..i + 1])
        invariant stack == old(stack) && lastTag == old(lastTag)
        invariant events + Ends(stack[..i + 1], pos) == old(events) + Ends(stack, pos)
      {
        EndsStep(stack, i, pos);
        CallEnd(stack[i].tag, stack[..i + 1]);
        i := i - 1;
      }
      EndsNone(stack[..i + 1], pos);
      stack := stack[..pos];
      lastTag := if pos > 0 then Some(stack[pos - 1].tag) else None;
    }

    /** `parseEndTag(tagName)`: closes everything down to the innermost open tag of that name, or everything when
        there is no name. */
    method ParseEndTag(tagName: Option<string>)
      requires Valid()
      modifies this`stack, this`lastTag, this`events, tree
      ensures Valid() && stack <= old(stack)
      ensures tagName.None? ==> stack == [] && events == old(events) + Ends(old(stack), 0)
      ensures tagName.Some? ==> Closes(old(stack), stack, options.lower(tagName.value))
      ensures tagName.Some? ==>
                events == old(events) + if |stack| < |old(stack)| then Ends(old(stack), |stack|)
                                        else Unmatched(tagName.value, options.lower(tagName.value))
    {
      hide Mirrored, Ends;
      var pos := 0;
      if tagName.Some? {
        pos := FindOpen(options.lower(tagName.value));
      }
      if pos >= 0 {
        CloseDownTo(pos);
      } else {
        CallUnmatched(tagName.value);
      }
    }

    /** The part of `parseEndTag` for an end tag that matches nothing. */
    method CallUnmatched(tag: string)
      requires Valid()
      modifies this`events, tree
      ensures Valid() && events == old(events) + Unmatched(tag, options.lower(tag))
    {
      hide Mirrored;
      ghost var open := stack + [Open(tag, options.lower(tag))];
      assert open[..|stack|] == stack;
      if options.lower(tag) == "br" {
        CallStart(tag, false, true, stack);
      } else if options.lower(tag) == "p" {
        CallStart(tag, false, false, stack);
        CallEnd(tag, open);
      }
    }

    /** `parseEndTag(lastTag)`: the end tag of the innermost open tag closes just that. */
    method CloseTop()
      requires Valid() && stack != []
      modifies this`stack, this`lastTag, this`events, tree
      ensures Valid() && stack == old(stack)[..|old(stack)| - 1]
      ensures events == old(events) + Ends(old(stack), |stack|)
    {
      hide Mirrored, Ends, Closes;
      ParseEndTag(lastTag);
      TopCloses(old(stack), options, stack);
    }

    /** The end tags that a start tag implies: at most an open p and then a left-open tag of the same name, each
        the innermost at its time. */
    method ImpliedEnds(tag: string)
      requires Valid()
      modifies this`stack, this`lastTag, this`events, tree
      ensures Valid() && stack == old(stack)[..|old(stack)| - ImpliedCount(options, old(stack), tag)]
      ensures var s, n := old(stack), |old(stack)|;
              var inP := options.expectHTML && n > 0 && s[n - 1].tag == "p" && options.isNonPhrasing(tag);
              var again := options.expectHTML && n > 0 && s[n - 1].tag == tag && options.canBeLeftOpen(tag);
              var next := inP && n > 1 && s[n - 2].tag == tag && options.canBeLeftOpen(tag);
              |stack| == n - (if inP then (if next then 2 else 1) else if again then 1 else 0)
      ensures events == old(events) + Ends(old(stack), |stack|)
    {
      hide Mirrored, Ends;
      ghost var s := stack;
      ImpliedIs(options, s, tag);
      EndsNone(s, |s|);
      if options.expectHTML {
        if lastTag == Some("p") && options.isNonPhrasing(tag) {
          CloseTop();
        }
        ghost var mid := stack;
        if options.canBeLeftOpen(tag) && lastTag == Some(tag) {
          CloseTop();
          EndsSplit(s, |stack|, |mid|);
        }
      }
    }

    /** `handleStartTag`: what a start tag implies closed is closed, then the tag is opened. */
    method HandleStartTag(tag: string, slash: bool, vPre: bool)
      requires Valid()
      modifies this`stack, this`lastTag, this`events, tree
      ensures Valid()
      ensures var kept := |old(stack)| - ImpliedCount(options, old(stack), tag);
              var unary := options.isUnary(tag) || slash;
              && events == old(events) + Ends(old(stack), kept) + [Event.Start(tag, unary, vPre)]
              && stack == old(stack)[..kept] + if unary then [] else [Open(tag, options.lower(tag))]
      ensures var s, n := old(stack), |old(stack)|;
              var inP := options.expectHTML && n > 0 && s[n - 1].tag == "p" && options.isNonPhrasing(tag);
              var again := options.expectHTML && n > 0 && s[n - 1].tag == tag && options.canBeLeftOpen(tag);
              var next := inP && n > 1 && s[n - 2].tag == tag && options.canBeLeftOpen(tag);
              |events| == |old(events)| + 1 + (if inP then (if next then 2 else 1) else if again then 1 else 0)
              && events[|events| - 1] == Event.Start(tag, options.isUnary(tag) || slash, vPre)
    {
      hide Mirrored, Ends, ImpliedCount;
      EndsAt(stack, |stack| - ImpliedCount(options, stack, tag));
      ImpliedIs(options, stack, tag);
      ImpliedEnds(tag);
      var unary := options.isUnary(tag) || slash;
      ghost var open := stack;
      if !unary {
        stack := stack + [Open(tag, options.lower(tag))];
        lastTag := Some(tag);
      }
      CallStart(tag, vPre, unary, open);
    }

    /** Where HTML is expected, every tag is where it may be, and was opened there since callback `start`. */
    ghost predicate FitsFrom(start: nat)
      reads this
    {
      Html(options) && WellPlaced(options, OpenTags(stack)) && start <= |events| && AllFit(options, events, start)
    }

    lemma FitsNext(start: nat, token: Token)
      requires Valid()
      ensures FitsFrom(start) ==>
                && WellPlaced(options, OpenTags(TokenStack(options, stack, token)))
                && AllFit(options, events + TokenCalls(options, stack, token), start)
    {
      hide Html, AllFit, WellPlaced, TokenStack, TokenCalls, Replay, InPreAfter;
      if FitsFrom(start) {
        TokenFits(options, events, start, stack, token);
      }
    }

    /** One token: exactly its callbacks are made. */
    method Feed(token: Token, ghost start: nat)
      requires Valid()
      modifies this`stack, this`lastTag, this`events, tree
      ensures Valid() && stack == TokenStack(options, old(stack), token)
      ensures events == old(events) + TokenCalls(options, old(stack), token)
      ensures old(FitsFrom(start)) ==> FitsFrom(start)
    {
      hide Mirrored, Ends, Innermost, Closes, Html, AllFit, WellPlaced;
      ghost var s, es := stack, events;
      FitsNext(start, token);
      match token
      case StartTag(tag, slash, vPre) =>
        HandleStartTag(tag, slash, vPre);
      case EndTag(tag) =>
        ParseEndTag(Some(tag));
        ClosesIs(old(stack), stack, options.lower(tag));
      case RawTextEnd =>
        if lastTag.Some? {
          var name := options.lower(lastTag.value);
          ParseEndTag(Some(name));
          ClosesIs(old(stack), stack, options.lower(name));
        }
      case Chars =>
    }

    /** `parseHTML` on any sequence of tokens: the callbacks are those of the tokens and the ends of what is open at
        the end; they are well bracketed and all closed, and so are the elements of the tree builder. The flag inPre
        was right after every callback exactly when no pre element was closed while another was open. Where HTML is
        expected, nothing but phrasing content was opened directly inside a p, and no tag that can be left open directly
        inside one of its name. */
    method ParseAll(tokens: seq<Token>)
      requires Valid()
      modifies this`stack, this`lastTag, this`events, tree
      ensures Valid() && stack == [] && Replay(events) == Some([])
      ensures events == old(events) + Callbacks(options, old(stack), tokens)
              + Ends(StackAfter(options, old(stack), tokens), 0)
      ensures tree.stack == [] && !tree.inVPre && !tree.inPre
      ensures Html(options) && WellPlaced(options, OpenTags(old(stack))) ==> AllFit(options, events, |old(events)|)
      ensures (forall n :: 0 <= n <= |events| ==> RightAt(options, events, n))
         <==> (forall n :: 0 <= n < |events| ==> !ClosesInnerPre(options, events, n))
    {
      hide Mirrored, Ends, TokenCalls, TokenStack, RightAt, ClosesInnerPre, FitsFrom, AllFit, WellPlaced, Html;
      ghost var start := |events|;
      FitsNow();
      assert tokens[0..] == tokens;
      for i := 0 to |tokens|
        invariant Valid() && (old(Html(options) && WellPlaced(options, OpenTags(stack))) ==> FitsFrom(start))
        invariant events + Callbacks(options, stack, tokens[i..])
                  == old(events) + Callbacks(options, old(stack), tokens)
        invariant StackAfter(options, stack, tokens[i..]) == StackAfter(options, old(stack), tokens)
      {
        assert tokens[i..][0] == tokens[i] && tokens[i..][1..] == tokens[i + 1..];
        Feed(tokens[i], start);
      }
      LastFit(start);
      ParseEndTag(None);
      AllClosed();
      InPreExact(options, events);
    }

    lemma FitsNow()
      ensures Html(options) && WellPlaced(options, OpenTags(stack)) ==> FitsFrom(|events|)
    {
    }

    lemma LastFit(start: nat)
      requires Valid()
      ensures FitsFrom(start) ==> AllFit(options, events + Ends(stack, 0), start)
    {
      hide AllFit, Replay, Ends, InPreAfter;
      if FitsFrom(start) {
        AfterEnds(options, events, start, stack, 0);
      }
    }

    lemma FlagsShown()
      requires Outermost(tree.stack, Flags(events))
      ensures |tree.stack| == |Flags(events)|
    {
    }

    /** What was right after the last callback is that the builder's inPre holds exactly inside a pre element; inVPre
        always holds exactly inside an element whose start callback carried v-pre. */
    lemma RightNow()
      requires Valid()
      ensures tree.inVPre <==> true in Flags(events)
      ensures RightAt(options, events, |events|) <==> (tree.inPre <==> InsidePre(options, tree.stack))
    {
      OutermostFound(tree.stack, Flags(events));
      assert events[..|events|] == events;
      InsideIsOpen(options, tree.stack);
    }

    lemma AllClosed()
      requires Valid() && stack == []
      ensures Replay(events) == Some([]) && tree.stack == [] && !tree.inVPre && !tree.inPre
    {
      assert |TagsOf(tree.stack)| == 0 && OpenTags(stack) == [];
    }
  }
}
