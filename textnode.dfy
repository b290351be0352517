/** The inline text value: a run of text, the kind of markup it carries,
    and an optional URL (meaningful for links and images). */
module TextNodes {
  import opened Wrappers

  /** The kind of an inline run. `Unknown` stands for any value that is not
      one of the enumeration's members (the source accepts an arbitrary
      object in that position and only the HTML mapping rejects it). */
  datatype TextKind =
    | Text
    | Bold
    | Italic
    | Code
    | Link
    | Image
    | Unknown(name: string)

  /** An immutable text node. Equality is structural over all three fields;
      `url` defaults to `None` when it is not supplied. */
  datatype TextNode = TextNode(text: string, kind: TextKind, url: Option<string> := None)

  /** The kinds that carry a URL. */
  predicate TakesUrl(k: TextKind) {
    k == Link || k == Image
  }

  /** A node whose URL is present exactly when its kind takes one. */
  predicate UrlFitsKind(n: TextNode) {
    n.url.Some? <==> TakesUrl(n.kind)
  }

  /** Two text nodes are equal exactly when text, kind and url all agree:
      a node differs from another that differs only in text, only in kind,
      or only in having a URL. */
  lemma EqualIffFieldsEqual(a: TextNode, b: TextNode)
    ensures a == b <==> (a.text == b.text && a.kind == b.kind && a.url == b.url)
  {
  }

  /** Constructing a node without a URL leaves the URL absent. */
  lemma DefaultUrlIsNone(text: string, kind: TextKind)
    ensures TextNode(text, kind).url == None
    ensures TextNode(text, kind) == TextNode(text, kind, None)
  {
  }
}
