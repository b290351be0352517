/** The concrete renderings the HTML node tests expect, stated as lemmas
    about the model: most tests have a lemma of their own, the mapping
    tests share one, and the login form is split over its parts. Where a
    test only checks that pieces appear in the output, the lemma states the
    whole output. Each expected string is written as the concatenation of
    the pieces it is made of (tags, attributes, children), which denotes
    the same string as the test's literal. `ToHtml(n).value` is only
    defined when the rendering succeeds, so each `ToHtml(n).value == s`
    below also states that rendering `n` succeeds. */
module HtmlNodeExamples {
  import opened Wrappers
  import opened TextNodes
  import opened HtmlNodes
  import opened MarkdownParser

  // Shapes the examples share: attribute lists of one and two entries, a
  // leaf with a tag, and a tagged parent with one, two or three children
  // that render.

  lemma OneAttr(a: (string, string))
    ensures PropsToHtml([a]) == Attr(a)
  {
    assert [a][1..] == [];
    assert Attr(a) + "" == Attr(a);
  }

  lemma TwoAttrs(a: (string, string), b: (string, string))
    ensures PropsToHtml([a, b]) == Attr(a) + Attr(b)
  {
    assert [a, b][1..] == [b];
    OneAttr(b);
  }

  lemma TaggedLeaf(t: string, v: string, props: Props, open: string, close: string)
    requires OpenTag(t, props) == open && CloseTag(t) == close
    ensures ToHtml(Leaf(Some(t), Some(v), props)).Success?
    ensures ToHtml(Leaf(Some(t), Some(v), props)).value == open + v + close
  {
    LeafWithTagRenders(t, v, props);
  }

  lemma OneChild(t: string, props: Props, a: HtmlNode)
    requires ToHtml(a).Success?
    ensures ToHtml(Parent(Some(t), Present([a]), props)).Success?
    ensures ToHtml(Parent(Some(t), Present([a]), props)).value == OpenTag(t, props) + ToHtml(a).value + CloseTag(t)
  {
    RenderOneChild(a);
    ParentWithTagRenders(t, [a], props);
  }

  lemma TwoChildren(t: string, props: Props, a: HtmlNode, b: HtmlNode)
    requires ToHtml(a).Success? && ToHtml(b).Success?
    ensures ToHtml(Parent(Some(t), Present([a, b]), props)).Success?
    ensures ToHtml(Parent(Some(t), Present([a, b]), props)).value
         == OpenTag(t, props) + ToHtml(a).value + ToHtml(b).value + CloseTag(t)
  {
    RenderOneChild(b);
    RenderChildrenCons(a, [b]);
    assert [a] + [b] == [a, b];
    ParentWithTagRenders(t, [a, b], props);
    var o, x, y, c := OpenTag(t, props), ToHtml(a).value, ToHtml(b).value, CloseTag(t);
    assert o + (x + y) + c == o + x + y + c;
  }

  lemma ThreeChildren(t: string, props: Props, a: HtmlNode, b: HtmlNode, c: HtmlNode)
    requires ToHtml(a).Success? && ToHtml(b).Success? && ToHtml(c).Success?
    ensures ToHtml(Parent(Some(t), Present([a, b, c]), props)).Success?
    ensures ToHtml(Parent(Some(t), Present([a, b, c]), props)).value
         == OpenTag(t, props) + ToHtml(a).value + ToHtml(b).value + ToHtml(c).value + CloseTag(t)
  {
    RenderOneChild(c);
    RenderChildrenCons(b, [c]);
    assert [b] + [c] == [b, c];
    RenderChildrenCons(a, [b, c]);
    assert [a] + [b, c] == [a, b, c];
    ParentWithTagRenders(t, [a, b, c], props);
    var o, x, y, z, e := OpenTag(t, props), ToHtml(a).value, ToHtml(b).value, ToHtml(c).value, CloseTag(t);
    assert o + (x + (y + z)) + e == o + x + y + z + e;
  }

  // The tags the examples use, without attributes.

  lemma PTags() ensures OpenTag("p", []) == "<p>" && CloseTag("p") == "</p>" {}
  lemma ATags() ensures CloseTag("a") == "</a>" {}
  lemma BTags() ensures OpenTag("b", []) == "<b>" && CloseTag("b") == "</b>" {}
  lemma SpanTags() ensures OpenTag("span", []) == "<span>" && CloseTag("span") == "</span>" {}
  lemma DivTags() ensures OpenTag("div", []) == "<div>" && CloseTag("div") == "</div>" {}
  lemma LiTags() ensures OpenTag("li", []) == "<li>" && CloseTag("li") == "</li>" {}
  lemma UlTags() ensures OpenTag("ul", []) == "<ul>" && CloseTag("ul") == "</ul>" {}
  lemma LabelTags() ensures OpenTag("label", []) == "<label>" && CloseTag("label") == "</label>" {}
  lemma InputTags() ensures CloseTag("input") == "</input>" {}
  lemma FormTags() ensures CloseTag("form") == "</form>" {}
  lemma SectionTags() ensures OpenTag("section", []) == "<section>" && CloseTag("section") == "</section>" {}
  lemma StrongTags() ensures OpenTag("strong", []) == "<strong>" && CloseTag("strong") == "</strong>" {}
  lemma H1Tags() ensures OpenTag("h1", []) == "<h1>" && CloseTag("h1") == "</h1>" {}
  lemma ArticleTags() ensures OpenTag("article", []) == "<article>" && CloseTag("article") == "</article>" {}
  lemma FooterTags() ensures CloseTag("footer") == "</footer>" && OpenTag("footer", []) == "<footer>" {}

  /** An opening tag with attributes: `<t`, the attributes, `>`. */
  lemma OpenTagWith(t: string, props: Props, lt: string)
    requires lt == "<" + t
    ensures OpenTag(t, props) == lt + PropsToHtml(props) + ">"
  {
  }

  /** One attribute serialises as ` name="`, the value, and `"`. */
  lemma AttrWith(name: string, value: string, head: string)
    requires head == " " + name + "=\""
    ensures Attr((name, value)) == head + value + "\""
  {
  }

  lemma PropsToHtmlEmpty()
    ensures PropsToHtml([]) == ""
  {
  }

  lemma PropsToHtmlSingle()
    ensures PropsToHtml([("href", "https://example.com")]) == " href=\"" + "https://example.com" + "\""
  {
    OneAttr(("href", "https://example.com"));
    AttrWith("href", "https://example.com", " href=\"");
  }

  /** Three attributes serialise in insertion order, each as a space and
      `name="value"`, and take exactly the length of the three pieces. */
  lemma PropsToHtmlMultiple()
    ensures PropsToHtml([("href", "https://example.com"), ("target", "_blank"), ("class", "button")])
         == " href=\"" + "https://example.com" + "\"" + (" target=\"" + "_blank" + "\"") + (" class=\"" + "button" + "\"")
    ensures |PropsToHtml([("href", "https://example.com"), ("target", "_blank"), ("class", "button")])|
         == |" href=\"https://example.com\""| + |" target=\"_blank\""| + |" class=\"button\""|
  {
    var h, t, c := ("href", "https://example.com"), ("target", "_blank"), ("class", "button");
    TwoAttrs(t, c);
    assert [h, t, c][1..] == [t, c];
    AttrWith("href", "https://example.com", " href=\"");
    AttrWith("target", "_blank", " target=\"");
    AttrWith("class", "button", " class=\"");
    assert PropsToHtml([h, t, c]) == Attr(h) + (Attr(t) + Attr(c));
  }

  lemma LeafToHtmlP()
    ensures ToHtml(Leaf(Some("p"), Some("Hello, world!"))).value == "<p>" + "Hello, world!" + "</p>"
  {
    PTags();
    TaggedLeaf("p", "Hello, world!", [], "<p>", "</p>");
  }

  lemma LeafToHtmlWithProps()
    ensures ToHtml(Leaf(Some("a"), Some("Click me!"), [("href", "https://www.google.com")])).value
         == "<a" + (" href=\"" + "https://www.google.com" + "\"") + ">" + "Click me!" + "</a>"
  {
    var href := ("href", "https://www.google.com");
    OneAttr(href);
    AttrWith("href", "https://www.google.com", " href=\"");
    OpenTagWith("a", [href], "<a");
    ATags();
    TaggedLeaf("a", "Click me!", [href], "<a" + (" href=\"" + "https://www.google.com" + "\"") + ">", "</a>");
  }

  lemma LeafToHtmlNoTag()
    ensures ToHtml(Leaf(None, Some("Just some text"))).value == "Just some text"
  {
  }

  lemma LeafToHtmlNoValue()
    ensures ToHtml(Leaf(Some("p"), None)) == Failure(MissingLeafValue)
  {
  }

  lemma ToHtmlWithChildren()
    ensures ToHtml(Parent(Some("div"), Present([Leaf(Some("span"), Some("child"))]))).value
         == "<div>" + ("<span>" + "child" + "</span>") + "</div>"
  {
    SpanTags();
    DivTags();
    TaggedLeaf("span", "child", [], "<span>", "</span>");
    OneChild("div", [], Leaf(Some("span"), Some("child")));
  }

  lemma ToHtmlWithGrandchildren()
    ensures ToHtml(Parent(Some("div"), Present([Parent(Some("span"), Present([Leaf(Some("b"), Some("grandchild"))]))]))).value
         == "<div>" + ("<span>" + ("<b>" + "grandchild" + "</b>") + "</span>") + "</div>"
  {
    var b := Leaf(Some("b"), Some("grandchild"));
    BTags();
    SpanTags();
    DivTags();
    TaggedLeaf("b", "grandchild", [], "<b>", "</b>");
    OneChild("span", [], b);
    OneChild("div", [], Parent(Some("span"), Present([b])));
  }

  lemma ParentNoTag()
    ensures ToHtml(Parent(None, Present([Leaf(Some("p"), Some("test"))]))) == Failure(MissingParentTag)
  {
  }

  lemma ParentNoChildren()
    ensures ToHtml(Parent(Some("div"), Absent)) == Failure(MissingChildren)
  {
  }

  lemma ParentWithMultipleChildren()
    ensures ToHtml(Parent(Some("ul"), Present([
              Leaf(Some("li"), Some("Item 1")),
              Leaf(Some("li"), Some("Item 2")),
              Leaf(Some("li"), Some("Item 3"))]))).value
         == "<ul>" + ("<li>" + "Item 1" + "</li>") + ("<li>" + "Item 2" + "</li>")
            + ("<li>" + "Item 3" + "</li>") + "</ul>"
  {
    LiTags();
    UlTags();
    TaggedLeaf("li", "Item 1", [], "<li>", "</li>");
    TaggedLeaf("li", "Item 2", [], "<li>", "</li>");
    TaggedLeaf("li", "Item 3", [], "<li>", "</li>");
    ThreeChildren("ul", [], Leaf(Some("li"), Some("Item 1")), Leaf(Some("li"), Some("Item 2")),
      Leaf(Some("li"), Some("Item 3")));
  }

  lemma ParentWithProps()
    ensures ToHtml(Parent(Some("div"), Present([Leaf(Some("span"), Some("Hello"))]),
                          [("class", "container"), ("id", "main")])).value
         == "<div" + ((" class=\"" + "container" + "\"") + (" id=\"" + "main" + "\"")) + ">"
            + ("<span>" + "Hello" + "</span>") + "</div>"
  {
    var c, i := ("class", "container"), ("id", "main");
    SpanTags();
    DivTags();
    TaggedLeaf("span", "Hello", [], "<span>", "</span>");
    TwoAttrs(c, i);
    AttrWith("class", "container", " class=\"");
    AttrWith("id", "main", " id=\"");
    OpenTagWith("div", [c, i], "<div");
    OneChild("div", [c, i], Leaf(Some("span"), Some("Hello")));
  }

  /** One form group: a label followed by an empty-valued input. */
  function FormGroup(caption: string, kind: string, name: string): HtmlNode {
    Parent(Some("div"), Present([
      Leaf(Some("label"), Some(caption)),
      Leaf(Some("input"), Some(""), [("type", kind), ("name", name)])]),
      [("class", "form-group")])
  }

  /** The submit button of the login form. */
  function SubmitInput(): HtmlNode {
    Leaf(Some("input"), Some(""), [("type", "submit"), ("value", "Login")])
  }

  /** The login form: two form groups and a submit input. */
  function LoginForm(): HtmlNode {
    Parent(Some("form"), Present([
      FormGroup("Username:", "text", "username"),
      FormGroup("Password:", "password", "password"),
      SubmitInput()]),
      [("action", "/login"), ("method", "post")])
  }

  /** An empty-valued input with two attributes. */
  lemma InputRenders(a: (string, string), b: (string, string))
    ensures ToHtml(Leaf(Some("input"), Some(""), [a, b])).Success?
    ensures ToHtml(Leaf(Some("input"), Some(""), [a, b])).value == "<input" + (Attr(a) + Attr(b)) + ">" + "</input>"
  {
    TwoAttrs(a, b);
    OpenTagWith("input", [a, b], "<input");
    InputTags();
    TaggedLeaf("input", "", [a, b], "<input" + (Attr(a) + Attr(b)) + ">", "</input>");
    assert "<input" + (Attr(a) + Attr(b)) + ">" + "" == "<input" + (Attr(a) + Attr(b)) + ">";
  }

  lemma FormGroupRenders(caption: string, kind: string, name: string)
    ensures ToHtml(FormGroup(caption, kind, name)).Success?
    ensures ToHtml(FormGroup(caption, kind, name)).value
         == "<div" + (" class=\"" + "form-group" + "\"") + ">"
            + ("<label>" + caption + "</label>")
            + ("<input" + (Attr(("type", kind)) + Attr(("name", name))) + ">" + "</input>")
            + "</div>"
  {
    var cls := ("class", "form-group");
    LabelTags();
    DivTags();
    TaggedLeaf("label", caption, [], "<label>", "</label>");
    InputRenders(("type", kind), ("name", name));
    OneAttr(cls);
    AttrWith("class", "form-group", " class=\"");
    OpenTagWith("div", [cls], "<div");
    TwoChildren("div", [cls], Leaf(Some("label"), Some(caption)),
      Leaf(Some("input"), Some(""), [("type", kind), ("name", name)]));
  }

  lemma UsernameGroupRenders()
    ensures ToHtml(FormGroup("Username:", "text", "username")).value
         == "<div" + (" class=\"" + "form-group" + "\"") + ">"
            + ("<label>" + "Username:" + "</label>")
            + ("<input" + ((" type=\"" + "text" + "\"") + (" name=\"" + "username" + "\"")) + ">" + "</input>")
            + "</div>"
  {
    FormGroupRenders("Username:", "text", "username");
    AttrWith("type", "text", " type=\"");
    AttrWith("name", "username", " name=\"");
  }

  lemma PasswordGroupRenders()
    ensures ToHtml(FormGroup("Password:", "password", "password")).value
         == "<div" + (" class=\"" + "form-group" + "\"") + ">"
            + ("<label>" + "Password:" + "</label>")
            + ("<input" + ((" type=\"" + "password" + "\"") + (" name=\"" + "password" + "\"")) + ">" + "</input>")
            + "</div>"
  {
    FormGroupRenders("Password:", "password", "password");
    AttrWith("type", "password", " type=\"");
    AttrWith("name", "password", " name=\"");
  }

  lemma SubmitInputRenders()
    ensures ToHtml(SubmitInput()).value
         == "<input" + ((" type=\"" + "submit" + "\"") + (" value=\"" + "Login" + "\"")) + ">" + "</input>"
  {
    InputRenders(("type", "submit"), ("value", "Login"));
    AttrWith("type", "submit", " type=\"");
    AttrWith("value", "Login", " value=\"");
  }

  /** The opening tag of the login form. */
  lemma LoginFormOpenTag()
    ensures OpenTag("form", [("action", "/login"), ("method", "post")])
         == "<form" + ((" action=\"" + "/login" + "\"") + (" method=\"" + "post" + "\"")) + ">"
  {
    TwoAttrs(("action", "/login"), ("method", "post"));
    AttrWith("action", "/login", " action=\"");
    AttrWith("method", "post", " method=\"");
    OpenTagWith("form", [("action", "/login"), ("method", "post")], "<form");
  }

  /** A form with nested groups, attributes and empty-valued inputs: every
      piece the test looks for appears, in document order. */
  lemma ComplexNesting()
    ensures ToHtml(LoginForm()).value
         == "<form" + ((" action=\"" + "/login" + "\"") + (" method=\"" + "post" + "\"")) + ">"
            + ("<div" + (" class=\"" + "form-group" + "\"") + ">"
               + ("<label>" + "Username:" + "</label>")
               + ("<input" + ((" type=\"" + "text" + "\"") + (" name=\"" + "username" + "\"")) + ">" + "</input>")
               + "</div>")
            + ("<div" + (" class=\"" + "form-group" + "\"") + ">"
               + ("<label>" + "Password:" + "</label>")
               + ("<input" + ((" type=\"" + "password" + "\"") + (" name=\"" + "password" + "\"")) + ">" + "</input>")
               + "</div>")
            + ("<input" + ((" type=\"" + "submit" + "\"") + (" value=\"" + "Login" + "\"")) + ">" + "</input>")
            + "</form>"
  {
    FormGroupRenders("Username:", "text", "username");
    FormGroupRenders("Password:", "password", "password");
    InputRenders(("type", "submit"), ("value", "Login"));
    UsernameGroupRenders();
    PasswordGroupRenders();
    SubmitInputRenders();
    LoginFormOpenTag();
    FormTags();
    ThreeChildren("form", [("action", "/login"), ("method", "post")],
      FormGroup("Username:", "text", "username"),
      FormGroup("Password:", "password", "password"),
      SubmitInput());
  }

  lemma EmptyChildrenList()
    ensures ToHtml(Parent(Some("div"), Present([]))).value == "<div>" + "</div>"
  {
    DivTags();
    EmptyParentRenders("div", []);
  }

  lemma ParentWithTextAndElements()
    ensures ToHtml(Parent(Some("p"), Present([
              Leaf(None, Some("This is ")),
              Leaf(Some("strong"), Some("important")),
              Leaf(None, Some(" text."))]))).value
         == "<p>" + "This is " + ("<strong>" + "important" + "</strong>") + " text." + "</p>"
  {
    PTags();
    StrongTags();
    TaggedLeaf("strong", "important", [], "<strong>", "</strong>");
    ThreeChildren("p", [], Leaf(None, Some("This is ")), Leaf(Some("strong"), Some("important")),
      Leaf(None, Some(" text.")));
  }

  lemma NestedParentWithNoLeafChildren()
    ensures ToHtml(Parent(Some("section"), Present([Parent(Some("div"), Present([]))]))).value
         == "<section>" + ("<div>" + "</div>") + "</section>"
  {
    EmptyChildrenList();
    SectionTags();
    OneChild("section", [], Parent(Some("div"), Present([])));
  }

  lemma TwoParagraphsRender()
    ensures ToHtml(Parent(Some("div"), Present([
              Leaf(Some("p"), Some("Paragraph 1")),
              Leaf(Some("p"), Some("Paragraph 2"))]))).value
         == "<div>" + ("<p>" + "Paragraph 1" + "</p>") + ("<p>" + "Paragraph 2" + "</p>") + "</div>"
  {
    PTags();
    DivTags();
    TaggedLeaf("p", "Paragraph 1", [], "<p>", "</p>");
    TaggedLeaf("p", "Paragraph 2", [], "<p>", "</p>");
    TwoChildren("div", [], Leaf(Some("p"), Some("Paragraph 1")), Leaf(Some("p"), Some("Paragraph 2")));
  }

  lemma ParentWithMixedChildTypes()
    ensures ToHtml(Parent(Some("article"), Present([
              Leaf(Some("h1"), Some("Article Title")),
              Parent(Some("div"), Present([
                Leaf(Some("p"), Some("Paragraph 1")),
                Leaf(Some("p"), Some("Paragraph 2"))])),
              Leaf(Some("footer"), Some("Copyright 2023"))]))).value
         == "<article>" + ("<h1>" + "Article Title" + "</h1>")
            + ("<div>" + ("<p>" + "Paragraph 1" + "</p>") + ("<p>" + "Paragraph 2" + "</p>") + "</div>")
            + ("<footer>" + "Copyright 2023" + "</footer>") + "</article>"
  {
    TwoParagraphsRender();
    H1Tags();
    FooterTags();
    ArticleTags();
    TaggedLeaf("h1", "Article Title", [], "<h1>", "</h1>");
    TaggedLeaf("footer", "Copyright 2023", [], "<footer>", "</footer>");
    ThreeChildren("article", [], Leaf(Some("h1"), Some("Article Title")), Parent(Some("div"), Present([
      Leaf(Some("p"), Some("Paragraph 1")), Leaf(Some("p"), Some("Paragraph 2"))])),
      Leaf(Some("footer"), Some("Copyright 2023")));
  }

  lemma TextToHtmlExamples()
    ensures TextToHtml(TextNode("This is a text node", Text)) == Success(Leaf(None, Some("This is a text node")))
    ensures TextToHtml(TextNode("Bold text", Bold)) == Success(Leaf(Some("b"), Some("Bold text")))
    ensures TextToHtml(TextNode("Italic text", Italic)) == Success(Leaf(Some("i"), Some("Italic text")))
    ensures TextToHtml(TextNode("Code snippet", Code)) == Success(Leaf(Some("code"), Some("Code snippet")))
    ensures TextToHtml(TextNode("Click me", Link, Some("https://example.com")))
         == Success(Leaf(Some("a"), Some("Click me"), [("href", "https://example.com")]))
    ensures TextToHtml(TextNode("Alt text for image", Image, Some("https://example.com/image.png")))
         == Success(Leaf(Some("img"), Some(""),
                         [("src", "https://example.com/image.png"), ("alt", "Alt text for image")]))
    ensures TextToHtml(TextNode("Invalid type", Unknown("not_a_valid_type")))
         == Failure(UnsupportedTextKind("not_a_valid_type"))
  {
  }
}
