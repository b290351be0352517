/** The mapping from an inline text node to the HTML leaf that displays
    it: a closed table from text kind to tag, value and attributes. */
module MarkdownParser {
  import opened Wrappers
  import opened TextNodes
  import opened HtmlNodes

  /** The text a URL takes in an attribute. Python formats an absent URL
      as the word `None`. */
  function UrlText(url: Option<string>): string {
    match url
    case Some(u) => u
    case None => "None"
  }

  /** Maps a text node to a leaf: plain text has no tag; bold, italic and
      code get `b`, `i` and `code`; a link gets `a` with `href`; an image
      gets `img` with an empty value, `src` and `alt`. Every other kind
      fails with `UnsupportedTextKind`. */
  function TextToHtml(n: TextNode): (r: Result<HtmlNode, Err>)
    ensures r.Failure? <==> n.kind.Unknown?
    ensures r.Failure? ==> r.error == UnsupportedTextKind(n.kind.name)
    ensures r.Success? ==> r.value.Leaf? && r.value.value.Some?
    ensures r.Success? ==> (r.value.tag.None? <==> n.kind == Text)
    ensures r.Success? ==> r.value.value.value == (if n.kind == Image then "" else n.text)
  {
    match n.kind
    case Text => Success(Leaf(None, Some(n.text)))
    case Bold => Success(Leaf(Some("b"), Some(n.text)))
    case Italic => Success(Leaf(Some("i"), Some(n.text)))
    case Code => Success(Leaf(Some("code"), Some(n.text)))
    case Link => Success(Leaf(Some("a"), Some(n.text), [("href", UrlText(n.url))]))
    case Image => Success(Leaf(Some("img"), Some(""), [("src", UrlText(n.url)), ("alt", n.text)]))
    case Unknown(name) => Failure(UnsupportedTextKind(name))
  }

  /** Reads a leaf produced by the mapping back into the text node it
      displays, or `None` for a node the mapping never produces. */
  function LeafToTextNode(h: HtmlNode): Option<TextNode> {
    match h
    case Parent(_, _, _) => None
    case Leaf(_, None, _) => None
    case Leaf(None, Some(v), props) =>
      if props == [] then Some(TextNode(v, Text)) else None
    case Leaf(Some(t), Some(v), props) =>
      if props == [] && t == "b" then Some(TextNode(v, Bold))
      else if props == [] && t == "i" then Some(TextNode(v, Italic))
      else if props == [] && t == "code" then Some(TextNode(v, Code))
      else if |props| == 1 && t == "a" && props[0].0 == "href" then
        Some(TextNode(v, Link, Some(props[0].1)))
      else if |props| == 2 && t == "img" && v == "" && props[0].0 == "src" && props[1].0 == "alt" then
        Some(TextNode(props[1].1, Image, Some(props[0].1)))
      else None
  }

  /** The mapping loses nothing: for a supported kind whose URL is present
      exactly when the kind takes one, the leaf gives back the text node. */
  lemma TextToHtmlRoundTrip(n: TextNode)
    requires !n.kind.Unknown? && UrlFitsKind(n)
    ensures TextToHtml(n).Success? && LeafToTextNode(TextToHtml(n).value) == Some(n)
  {
  }

  /** The attributes of the mapped leaves, looked up by name: a link's
      `href` is its URL; an image's `src` is its URL and its `alt` is its
      text. The other kinds carry no attributes. */
  lemma MappedAttributes(n: TextNode)
    requires !n.kind.Unknown?
    ensures TextToHtml(n).Success?
    ensures n.kind == Link ==> Lookup(TextToHtml(n).value.props, "href") == Some(UrlText(n.url))
    ensures n.kind == Image ==> Lookup(TextToHtml(n).value.props, "src") == Some(UrlText(n.url))
    ensures n.kind == Image ==> Lookup(TextToHtml(n).value.props, "alt") == Some(n.text)
    ensures !TakesUrl(n.kind) ==> TextToHtml(n).value.props == []
  {
    if n.kind == Image {
      var props := TextToHtml(n).value.props;
      assert props[1..] == [("alt", n.text)];
      assert props[1..][1..] == [];
    } else if n.kind == Link {
      assert TextToHtml(n).value.props[1..] == [];
    }
  }

  /** Every leaf the mapping produces for plain, bold, italic and code
      text renders: plain text as itself, the others as the text between
      the kind's opening and closing tags. */
  lemma {:induction false} MappedTextRenders(n: TextNode)
    requires n.kind in {Text, Bold, Italic, Code}
    ensures TextToHtml(n).Success? && ToHtml(TextToHtml(n).value).Success?
    ensures n.kind == Text ==> ToHtml(TextToHtml(n).value).value == n.text
    ensures n.kind == Bold ==> ToHtml(TextToHtml(n).value).value == "<b>" + n.text + "</b>"
    ensures n.kind == Italic ==> ToHtml(TextToHtml(n).value).value == "<i>" + n.text + "</i>"
    ensures n.kind == Code ==> ToHtml(TextToHtml(n).value).value == "<code>" + n.text + "</code>"
  {
    match n.kind
    case Text =>
    case Bold =>
      LeafWithTagRenders("b", n.text, []);
      assert OpenTag("b", []) == "<b>" && CloseTag("b") == "</b>";
    case Italic =>
      LeafWithTagRenders("i", n.text, []);
      assert OpenTag("i", []) == "<i>" && CloseTag("i") == "</i>";
    case Code =>
      LeafWithTagRenders("code", n.text, []);
      assert OpenTag("code", []) == "<code>" && CloseTag("code") == "</code>";
  }

  /** The leaf the mapping produces for a link renders as an `a` element
      whose `href` is the URL. */
  lemma MappedLinkRenders(n: TextNode)
    requires n.kind == Link
    ensures TextToHtml(n).Success? && ToHtml(TextToHtml(n).value).Success?
    ensures ToHtml(TextToHtml(n).value).value == "<a href=\"" + UrlText(n.url) + "\">" + n.text + "</a>"
  {
    var u := UrlText(n.url);
    var props := [("href", u)];
    LeafWithTagRenders("a", n.text, props);
    assert PropsToHtml(props) == Attr(("href", u)) + PropsToHtml([]);
    assert OpenTag("a", props) == "<a href=\"" + u + "\">";
    assert CloseTag("a") == "</a>";
  }

  /** The leaf the mapping produces for an image renders as an `img`
      element with an empty value whose `src` is the URL and whose `alt` is
      the text. */
  lemma MappedImageRenders(n: TextNode)
    requires n.kind == Image
    ensures TextToHtml(n).Success? && ToHtml(TextToHtml(n).value).Success?
    ensures ToHtml(TextToHtml(n).value).value
         == "<img src=\"" + UrlText(n.url) + "\" alt=\"" + n.text + "\">" + "</img>"
  {
    var u := UrlText(n.url);
    LeafWithTagRenders("img", "", [("src", u), ("alt", n.text)]);
    ImageOpenTag(u, n.text);
    assert CloseTag("img") == "</img>";
  }

  /** The opening tag of an image: its `src`, then its `alt`. */
  lemma ImageOpenTag(src: string, alt: string)
    ensures OpenTag("img", [("src", src), ("alt", alt)]) == "<img src=\"" + src + "\" alt=\"" + alt + "\">"
  {
    var props := [("src", src), ("alt", alt)];
    assert props[1..] == [("alt", alt)];
    assert PropsToHtml(props[1..]) == Attr(("alt", alt)) + PropsToHtml([]);
    assert PropsToHtml(props) == Attr(("src", src)) + Attr(("alt", alt));
  }
}
