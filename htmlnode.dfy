/** The HTML node tree and its renderer. A node is a leaf (a tag that may be
    absent, a value that may be absent, attributes) or a parent (a tag and a
    list of children, either of which may be absent, attributes). Absent
    parts are accepted at construction and rejected only when rendering. */
module HtmlNodes {
  import opened Wrappers

  /** Attributes in insertion order, as (name, value) pairs. A node built
      without attributes (Python `None`) has the empty list. */
  type Props = seq<(string, string)>

  /** The failures of rendering and of the text-node mapping. */
  datatype Err =
    | MissingLeafValue
    | MissingParentTag
    | MissingChildren
    | UnsupportedTextKind(kind: string)

  datatype HtmlNode =
    | Leaf(tag: Option<string>, value: Option<string>, props: Props := [])
    | Parent(tag: Option<string>, children: ChildList, props: Props := [])

  /** A parent's children: absent (Python `None`), or a list that may be
      empty. Plays the part of `Option<seq<HtmlNode>>`; a datatype of its
      own lets recursion over the children be shown to terminate. */
  datatype ChildList = Absent | Present(nodes: seq<HtmlNode>)

  /** The serialised form of one attribute: a space, the name, `="`, the
      value and a closing `"`. */
  function Attr(p: (string, string)): string {
    " " + p.0 + "=\"" + p.1 + "\""
  }

  /** The number of characters the attributes take once serialised: each
      contributes its name, its value and four punctuation characters. */
  function PropsLength(props: Props): nat {
    if props == [] then 0 else |props[0].0| + |props[0].1| + 4 + PropsLength(props[1..])
  }

  /** The attribute string of an opening tag: each attribute in order, with
      nothing before, between or after them; no attributes give "". */
  function PropsToHtml(props: Props): (r: string)
    ensures props == [] ==> r == ""
    ensures |r| == PropsLength(props)
  {
    if props == [] then "" else Attr(props[0]) + PropsToHtml(props[1..])
  }

  /** The value stored under `name`, as a dictionary built from the pairs
      in order holds it: a later pair with the same name wins. */
  function Lookup(props: Props, name: string): (r: Option<string>)
    ensures r.Some? <==> exists i :: 0 <= i < |props| && props[i].0 == name
    ensures r.Some? ==> (name, r.value) in props
  {
    if props == [] then None
    else
      match Lookup(props[1..], name)
      case Some(v) => Some(v)
      case None => if props[0].0 == name then Some(props[0].1) else None
  }

  /** No two attributes share a name: the lists that stand for a Python
      dictionary. */
  predicate DistinctNames(props: Props) {
    forall i, j :: 0 <= i < j < |props| ==> props[i].0 != props[j].0
  }

  /** The last pair with a given name decides the lookup, as a later key in
      a dictionary display overwrites an earlier one. */
  lemma {:induction false} LookupLastWins(props: Props, name: string, i: nat)
    requires i < |props| && props[i].0 == name
    requires forall j :: i < j < |props| ==> props[j].0 != name
    ensures Lookup(props, name) == Some(props[i].1)
  {
    // Past `i` in the whole list is past `i - 1` in its tail.
    forall j | i < j + 1 && j < |props[1..]|
      ensures props[1..][j].0 != name
    {
      assert props[1..][j] == props[j + 1];
    }
    if i > 0 {
      LookupLastWins(props[1..], name, i - 1);
    }
  }

  /** In a list with distinct names, looking up an attribute's name gives
      that attribute's value. */
  lemma LookupDistinct(props: Props, i: nat)
    requires DistinctNames(props) && i < |props|
    ensures Lookup(props, props[i].0) == Some(props[i].1)
  {
    LookupLastWins(props, props[i].0, i);
  }

  /** `<tag`, the attributes, `>`. */
  function OpenTag(tag: string, props: Props): string {
    "<" + tag + PropsToHtml(props) + ">"
  }

  /** `</tag>`. */
  function CloseTag(tag: string): string {
    "</" + tag + ">"
  }

  /** Every validation failure of a tree, in pre-order: a leaf without a
      value; a parent without a tag; a parent without a children list
      (otherwise the failures of its children, in order). A tree renders
      exactly when this list is empty. */
  function Defects(n: HtmlNode): seq<Err>
    decreases n, 1
  {
    match n
    case Leaf(_, value, _) =>
      if value.None? then [MissingLeafValue] else []
    case Parent(tag, Absent, _) =>
      (if tag.None? then [MissingParentTag] else []) + [MissingChildren]
    case Parent(tag, Present(cs), _) =>
      (if tag.None? then [MissingParentTag] else []) + ChildDefects(cs)
  }

  function ChildDefects(cs: seq<HtmlNode>): seq<Err>
    decreases cs, 0
  {
    if cs == [] then [] else Defects(cs[0]) + ChildDefects(cs[1..])
  }

  /** Renders a node. A leaf without a value fails; a leaf without a tag is
      its value verbatim; a tagged leaf is its value between an opening tag
      carrying the attributes and a closing tag. A parent without a tag or
      without a children list fails; otherwise it is its children's
      renderings, in order, between its opening and closing tags. */
  function ToHtml(n: HtmlNode): Result<string, Err>
    decreases n, 1
  {
    match n
    case Leaf(tag, value, props) =>
      if value.None? then Failure(MissingLeafValue)
      else if tag.None? then Success(value.value)
      else Success(OpenTag(tag.value, props) + value.value + CloseTag(tag.value))
    case Parent(None, _, _) => Failure(MissingParentTag)
    case Parent(Some(_), Absent, _) => Failure(MissingChildren)
    case Parent(Some(tag), Present(cs), props) =>
      match RenderChildren(cs)
        case Failure(e) => Failure(e)
        case Success(inner) => Success(OpenTag(tag, props) + inner + CloseTag(tag))
  }

  /** The renderings of a list of children, concatenated in order; the
      first child that fails decides the failure. */
  function RenderChildren(cs: seq<HtmlNode>): Result<string, Err>
    decreases cs, 0
  {
    if cs == [] then Success("")
    else
      match ToHtml(cs[0])
      case Failure(e) => Failure(e)
      case Success(head) =>
        match RenderChildren(cs[1..])
        case Failure(e) => Failure(e)
        case Success(tail) => Success(head + tail)
  }

  /** Rendering succeeds exactly when the tree has no defect, and a failure
      reports the first defect in pre-order: the checks of a parent's tag
      and children come before anything inside it, and children are
      checked left to right. */
  lemma {:induction false} RenderFailsOnFirstDefect(n: HtmlNode)
    ensures ToHtml(n).Success? <==> Defects(n) == []
    ensures ToHtml(n).Failure? ==> ToHtml(n).error == Defects(n)[0]
    decreases n, 1
  {
    match n
    case Leaf(_, _, _) =>
    case Parent(None, _, _) =>
    case Parent(Some(_), Absent, _) =>
    case Parent(Some(_), Present(cs), _) =>
      RenderChildrenFailsOnFirstDefect(cs);
  }

  lemma {:induction false} RenderChildrenFailsOnFirstDefect(cs: seq<HtmlNode>)
    ensures RenderChildren(cs).Success? <==> ChildDefects(cs) == []
    ensures RenderChildren(cs).Failure? ==> RenderChildren(cs).error == ChildDefects(cs)[0]
    decreases cs, 0
  {
    if cs != [] {
      RenderFailsOnFirstDefect(cs[0]);
      RenderChildrenFailsOnFirstDefect(cs[1..]);
    }
  }

  /** A leaf without a tag renders as its value, verbatim, whatever its
      attributes. */
  lemma LeafWithoutTagIsVerbatim(v: string, props: Props)
    ensures ToHtml(Leaf(None, Some(v), props)) == Success(v)
  {
  }

  /** A leaf with a tag and a value (possibly empty) renders as the value
      between the opening tag (`<tag`, the attributes, `>`) and `</tag>`. */
  lemma LeafWithTagRenders(t: string, v: string, props: Props)
    ensures ToHtml(Leaf(Some(t), Some(v), props)).Success?
    ensures ToHtml(Leaf(Some(t), Some(v), props)).value == OpenTag(t, props) + v + CloseTag(t)
  {
  }

  /** A parent with an empty (not absent) children list renders as its
      opening tag immediately followed by its closing tag. */
  lemma EmptyParentRenders(t: string, props: Props)
    ensures ToHtml(Parent(Some(t), Present([]), props)).Success?
    ensures ToHtml(Parent(Some(t), Present([]), props)).value == OpenTag(t, props) + CloseTag(t)
  {
    assert OpenTag(t, props) + "" + CloseTag(t) == OpenTag(t, props) + CloseTag(t);
  }

  /** A leaf without a value fails, with or without a tag; an empty value
      is a value. A parent without a tag, or with a tag but without a
      children list, fails. */
  lemma MissingPartsFail(tag: Option<string>, children: ChildList, props: Props)
    ensures ToHtml(Leaf(tag, None, props)) == Failure(MissingLeafValue)
    ensures ToHtml(Parent(None, children, props)) == Failure(MissingParentTag)
    ensures tag.Some? ==> ToHtml(Parent(tag, Absent, props)) == Failure(MissingChildren)
  {
  }

  /** Serialising a concatenation of attribute lists concatenates their
      serialisations: each attribute is emitted on its own, in order. */
  lemma {:induction false} PropsToHtmlAppend(a: Props, b: Props)
    ensures PropsToHtml(a + b) == PropsToHtml(a) + PropsToHtml(b)
  {
    if a != [] {
      assert (a + b)[1..] == a[1..] + b;
      PropsToHtmlAppend(a[1..], b);
    } else {
      assert a + b == b;
    }
  }

  /** Rendering the children `xs + ys` renders `xs`, then `ys`, and joins
      the two in that order; a failure in `xs` wins over one in `ys`. */
  lemma {:induction false} RenderChildrenAppend(xs: seq<HtmlNode>, ys: seq<HtmlNode>)
    ensures RenderChildren(xs).Failure? ==>
      RenderChildren(xs + ys).Failure? && RenderChildren(xs + ys).error == RenderChildren(xs).error
    ensures RenderChildren(xs).Success? && RenderChildren(ys).Failure? ==>
      RenderChildren(xs + ys).Failure? && RenderChildren(xs + ys).error == RenderChildren(ys).error
    ensures RenderChildren(xs).Success? && RenderChildren(ys).Success? ==>
      RenderChildren(xs + ys).Success?
      && RenderChildren(xs + ys).value == RenderChildren(xs).value + RenderChildren(ys).value
  {
    if xs == [] {
      assert xs + ys == ys;
      if RenderChildren(ys).Success? {
        assert "" + RenderChildren(ys).value == RenderChildren(ys).value;
      }
    } else {
      var x, rest := xs[0], xs[1..];
      assert (xs + ys)[0] == x;
      assert (xs + ys)[1..] == rest + ys;
      RenderChildrenAppend(rest, ys);
      if ToHtml(x).Success? && RenderChildren(rest).Success? && RenderChildren(ys).Success? {
        var h, t, r := ToHtml(x).value, RenderChildren(rest).value, RenderChildren(ys).value;
        assert RenderChildren(rest + ys).value == t + r;
        assert h + (t + r) == (h + t) + r;
      }
    }
  }

  /** A single child renders as itself. */
  lemma RenderOneChild(c: HtmlNode)
    ensures RenderChildren([c]) == ToHtml(c)
  {
    assert [c][1..] == [];
    if ToHtml(c).Success? {
      assert ToHtml(c).value + "" == ToHtml(c).value;
    }
  }

  /** A list of children headed by `c` renders as `c` followed by the rest. */
  lemma RenderChildrenCons(c: HtmlNode, cs: seq<HtmlNode>)
    requires ToHtml(c).Success? && RenderChildren(cs).Success?
    ensures RenderChildren([c] + cs).Success?
    ensures RenderChildren([c] + cs).value == ToHtml(c).value + RenderChildren(cs).value
  {
    assert ([c] + cs)[0] == c;
    assert ([c] + cs)[1..] == cs;
  }

  /** A parent with a tag and children that render renders as the opening
      tag with the attributes, the children's renderings, and the closing
      tag. */
  lemma ParentWithTagRenders(t: string, cs: seq<HtmlNode>, props: Props)
    requires RenderChildren(cs).Success?
    ensures ToHtml(Parent(Some(t), Present(cs), props)).Success?
    ensures ToHtml(Parent(Some(t), Present(cs), props)).value
         == OpenTag(t, props) + RenderChildren(cs).value + CloseTag(t)
  {
  }
}
