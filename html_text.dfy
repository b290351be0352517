/** The text a rendered page shows: what is left of the markup once every
    `<...>` tag is taken out. Rendering only adds tags around the leaves'
    values, so for a tree whose tags, values and attributes hold no angle
    bracket the text of the rendering is the leaves' values in order. */
module HtmlText {
  import opened Wrappers
  import opened HtmlNodes

  /** The characters of `s` outside tags, reading from the given state
      (`inTag` when a `<` has been read and its `>` has not). */
  function Strip(s: string, inTag: bool): string {
    if s == [] then []
    else if inTag then Strip(s[1..], s[0] != '>')
    else if s[0] == '<' then Strip(s[1..], true)
    else [s[0]] + Strip(s[1..], false)
  }

  /** Whether reading `s` from the given state ends inside a tag. */
  function EndsInTag(s: string, inTag: bool): bool {
    if s == [] then inTag
    else EndsInTag(s[1..], if inTag then s[0] != '>' else s[0] == '<')
  }

  /** Reading `a + b` is reading `a`, then `b` from where `a` left off. */
  lemma {:induction false} StripAppend(a: string, b: string, inTag: bool)
    ensures Strip(a + b, inTag) == Strip(a, inTag) + Strip(b, EndsInTag(a, inTag))
    ensures EndsInTag(a + b, inTag) == EndsInTag(b, EndsInTag(a, inTag))
  {
    if a == [] {
      assert a + b == b;
    } else {
      assert (a + b)[0] == a[0];
      assert (a + b)[1..] == a[1..] + b;
      var next := if inTag then a[0] != '>' else a[0] == '<';
      StripAppend(a[1..], b, next);
      if !inTag && a[0] != '<' {
        assert [a[0]] + (Strip(a[1..], false) + Strip(b, EndsInTag(a[1..], false)))
            == ([a[0]] + Strip(a[1..], false)) + Strip(b, EndsInTag(a[1..], false));
      }
    }
  }

  /** Text without `<` is all text. */
  lemma {:induction false} StripText(s: string)
    requires '<' !in s
    ensures Strip(s, false) == s && !EndsInTag(s, false)
  {
    if s != [] {
      assert '<' !in s[1..];
      StripText(s[1..]);
      assert [s[0]] + s[1..] == s;
    }
  }

  /** The rest of a tag up to and including its `>` is no text. */
  lemma {:induction false} StripTagRest(s: string)
    requires '>' !in s
    ensures Strip(s + ">", true) == [] && !EndsInTag(s + ">", true)
  {
    if s == [] {
      assert s + ">" == ">";
    } else {
      assert (s + ">")[1..] == s[1..] + ">";
      StripTagRest(s[1..]);
    }
  }

  /** A whole tag `<...>` is no text. */
  lemma StripTag(s: string)
    requires '>' !in s
    ensures Strip("<" + s + ">", false) == [] && !EndsInTag("<" + s + ">", false)
  {
    assert ("<" + s + ">")[1..] == s + ">";
    StripTagRest(s);
  }

  /** No angle bracket in a string. */
  predicate PlainText(s: string) {
    '<' !in s && '>' !in s
  }

  /** No angle bracket in any attribute name or value. */
  predicate PlainProps(props: Props) {
    forall i :: 0 <= i < |props| ==> PlainText(props[i].0) && PlainText(props[i].1)
  }

  lemma {:induction false} PlainPropsToHtml(props: Props)
    requires PlainProps(props)
    ensures PlainText(PropsToHtml(props))
  {
    if props != [] {
      assert PlainText(props[0].0) && PlainText(props[0].1);
      assert PlainProps(props[1..]) by {
        forall i | 0 <= i < |props[1..]|
          ensures PlainText(props[1..][i].0) && PlainText(props[1..][i].1)
        {
          assert props[1..][i] == props[i + 1];
        }
      }
      PlainPropsToHtml(props[1..]);
    }
  }

  /** No angle bracket in any tag, value or attribute of the tree. */
  predicate PlainTree(n: HtmlNode)
    decreases n, 1
  {
    && (n.tag.Some? ==> PlainText(n.tag.value))
    && PlainProps(n.props)
    && match n
       case Leaf(_, value, _) => value.Some? ==> PlainText(value.value)
       case Parent(_, Absent, _) => true
       case Parent(_, Present(cs), _) => PlainChildren(cs)
  }

  predicate PlainChildren(cs: seq<HtmlNode>)
    decreases cs, 0
  {
    cs != [] ==> PlainTree(cs[0]) && PlainChildren(cs[1..])
  }

  /** The text of a tree: its leaves' values, in order. */
  function TextContent(n: HtmlNode): string
    decreases n, 1
  {
    match n
    case Leaf(_, value, _) => if value.Some? then value.value else ""
    case Parent(_, Absent, _) => ""
    case Parent(_, Present(cs), _) => ChildrenText(cs)
  }

  function ChildrenText(cs: seq<HtmlNode>): string
    decreases cs, 0
  {
    if cs == [] then "" else TextContent(cs[0]) + ChildrenText(cs[1..])
  }

  /** Text between an opening and a closing tag is kept and the tags are
      dropped. */
  lemma StripElement(t: string, props: Props, inner: string)
    requires PlainText(t) && PlainProps(props)
    requires !EndsInTag(inner, false)
    ensures Strip(OpenTag(t, props) + inner + CloseTag(t), false) == Strip(inner, false)
    ensures !EndsInTag(OpenTag(t, props) + inner + CloseTag(t), false)
  {
    PlainPropsToHtml(props);
    var attrs := PropsToHtml(props);
    assert OpenTag(t, props) == "<" + (t + attrs) + ">";
    assert '>' !in t + attrs;
    StripTag(t + attrs);
    assert CloseTag(t) == "<" + ("/" + t) + ">";
    assert '>' !in "/" + t;
    StripTag("/" + t);
    StripAppend(OpenTag(t, props), inner, false);
    StripAppend(OpenTag(t, props) + inner, CloseTag(t), false);
    assert [] + Strip(inner, false) == Strip(inner, false);
    assert Strip(inner, false) + [] == Strip(inner, false);
  }

  /** The text of a successful rendering of a tree without angle brackets
      is the tree's text content: rendering adds tags and nothing else, and
      keeps the leaves in order. */
  lemma {:induction false} RenderedTextIsContent(n: HtmlNode)
    requires PlainTree(n) && ToHtml(n).Success?
    ensures Strip(ToHtml(n).value, false) == TextContent(n)
    ensures !EndsInTag(ToHtml(n).value, false)
    decreases n, 1
  {
    match n
    case Leaf(None, Some(v), _) =>
      StripText(v);
    case Leaf(Some(t), Some(v), props) =>
      StripText(v);
      StripElement(t, props, v);
    case Parent(Some(t), Present(cs), props) =>
      RenderedChildrenTextIsContent(cs);
      StripElement(t, props, RenderChildren(cs).value);
  }

  lemma {:induction false} RenderedChildrenTextIsContent(cs: seq<HtmlNode>)
    requires PlainChildren(cs) && RenderChildren(cs).Success?
    ensures Strip(RenderChildren(cs).value, false) == ChildrenText(cs)
    ensures !EndsInTag(RenderChildren(cs).value, false)
    decreases cs, 0
  {
    if cs == [] {
    } else {
      RenderedTextIsContent(cs[0]);
      RenderedChildrenTextIsContent(cs[1..]);
      StripAppend(ToHtml(cs[0]).value, RenderChildren(cs[1..]).value, false);
    }
  }
}
