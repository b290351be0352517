# HTML nodes and text nodes of a static site generator

This project models the node layer of a small static site generator written
in Python.

- **HTML node tree.** A node is either a leaf or a parent.
  - A leaf has an optional tag, an optional value and attributes.
  - A parent has an optional tag, an optional list of children and attributes.
- **Renderer.** It turns a node into an HTML string, or reports why it cannot:
  - a leaf has no value;
  - a parent has no tag;
  - a parent has no children list.
- **Attribute serialisation.** Each attribute becomes ` name="value"`, in insertion order.
- **Text nodes.** An inline text node is a record of a text, a kind and an optional URL. Two text nodes are equal when all three fields are equal.
- **Mapping.** A fixed table maps a text node to the HTML leaf that displays it.

The implementation modules (`htmlnode`, `textnode`, `markdown_parser`) are
not part of this model. Their behaviour is modelled as the two test files
pin it down: `src/test_htmlnode.py` and `src/test_textnode.py`.

Everything here is pure: datatypes, recursive functions and lemmas. The
Python classes are never changed after construction.

Files:

- `wrappers.dfy`: `Option` and `Result`.
- `htmlnode.dfy` (module `HtmlNodes`): the node tree, attributes, the renderer, and what is proved about them.
- `textnode.dfy` (module `TextNodes`): the text node record.
- `markdown_parser.dfy` (module `MarkdownParser`): the text-node-to-leaf mapping and its inverse.
- `props_parse.dfy` (module `PropsParse`): a parser for the attribute string. It is the inverse of the serialisation and shows that the serialisation keeps order and loses nothing.
- `html_text.dfy` (module `HtmlText`): removing the tags from a rendering leaves exactly the text content of the tree.
- `test_htmlnode.dfy` and `test_textnode.dfy`: the tests' concrete cases as lemmas. Most tests have a lemma of their own; the mapping tests share `TextToHtmlExamples`, the text node tests share `EqualityExamples`, and the login-form test is split over the lemmas for its parts.

## Model

| member | source | states |
|---|---|---|
| HtmlNodes.PropsToHtml | src/test_htmlnode.py:9-37 | No attributes serialise to ""; the serialised length is exactly the sum, over the attributes, of name, value and four punctuation characters, so nothing extra is added |
| HtmlNodes.PropsToHtmlAppend | src/test_htmlnode.py:19-37 | Serialising two attribute lists one after the other is the serialisation of their concatenation: each attribute is emitted independently, in insertion order |
| HtmlNodes.Lookup | src/test_htmlnode.py:195-208 | Reading an attribute by name (Python `props[name]`) finds a value exactly when some pair has that name, and the value found is one stored under it |
| HtmlNodes.LookupLastWins | src/test_htmlnode.py:195-208 | The last pair with a given name decides the lookup, as a later key overwrites an earlier one in a dictionary |
| HtmlNodes.LookupDistinct | src/test_htmlnode.py:200-208 | In a list with distinct names, which is what a Python dictionary stands for, looking up an attribute's name gives that attribute's value |
| HtmlNodes.RenderFailsOnFirstDefect | src/test_htmlnode.py:51-78 | A node renders exactly when it has no defect (leaf without value, parent without tag, parent without children list, anywhere in the tree); a failure reports the first defect in pre-order |
| HtmlNodes.RenderChildrenFailsOnFirstDefect | src/test_htmlnode.py:56-90 | A list of children renders exactly when none of them has a defect; a failure reports the first defect, left to right (the tests render only children that succeed; no test has a failing child) |
| HtmlNodes.LeafWithTagRenders | src/test_htmlnode.py:39-45 | A tagged leaf with a value, the empty value included, renders as `<tag`, its attributes, `>`, the value and `</tag>` |
| HtmlNodes.LeafWithoutTagIsVerbatim | src/test_htmlnode.py:47-49 | A leaf without a tag renders as its value, unchanged, whatever its attributes |
| HtmlNodes.MissingPartsFail | src/test_htmlnode.py:51-78 | A leaf without a value fails, with or without a tag; a parent without a tag fails; a tagged parent without a children list fails; each with its own error |
| HtmlNodes.EmptyParentRenders | src/test_htmlnode.py:131-134 | A tagged parent with an empty children list renders as its opening tag followed directly by its closing tag |
| HtmlNodes.ParentWithTagRenders | src/test_htmlnode.py:56-68 | A tagged parent whose children render renders as its opening tag with attributes, the children's renderings, and its closing tag |
| HtmlNodes.RenderChildrenAppend | src/test_htmlnode.py:80-90 | Children `xs + ys` render as the rendering of `xs` followed by that of `ys`; a failure in `xs` wins over one in `ys` |
| HtmlNodes.RenderOneChild | src/test_htmlnode.py:56-59 | A single child renders as itself |
| HtmlNodes.RenderChildrenCons | src/test_htmlnode.py:80-90 | A list headed by a child renders as that child followed by the rest |
| PropsParse.ParsePropsSound | src/test_htmlnode.py:14-37 | Whatever the attribute parser returns serialises back to its input |
| PropsParse.ParsePropsToHtml | src/test_htmlnode.py:19-37 | Parsing serialised attributes (no `=` in names, no `"` in values) gives back the same pairs in the same order |
| PropsParse.PropsToHtmlInjective | src/test_htmlnode.py:19-37 | Two such attribute lists with the same serialisation are equal, so a different insertion order gives a different string |
| HtmlText.StripElement | src/test_htmlnode.py:56-68 | Removing tags from an element (tags and attributes free of angle brackets) leaves what removing them from its content leaves |
| HtmlText.RenderedTextIsContent | src/test_htmlnode.py:136-146 | For a tree whose tags, values and attributes hold no angle brackets, the rendering with its tags removed is the tree's text content in document order |
| HtmlText.RenderedChildrenTextIsContent | src/test_htmlnode.py:154-167 | The same for a list of children: tags removed, the rendering is the children's text, in order |
| MarkdownParser.TextToHtml | src/test_htmlnode.py:170-214 | The mapping fails exactly for a kind outside the table, reporting that kind; otherwise it gives a leaf with a value; the leaf has no tag exactly for plain text; its value is the text, except for an image, where it is "" |
| MarkdownParser.TextToHtmlRoundTrip | src/test_htmlnode.py:170-208 | The mapped leaf gives back the text node (text, kind and URL) whenever the kind is supported and the URL is present exactly for links and images |
| MarkdownParser.MappedAttributes | src/test_htmlnode.py:195-208 | A link's `href` is its URL; an image's `src` is its URL and its `alt` its text; the other kinds carry no attributes |
| MarkdownParser.MappedTextRenders | src/test_htmlnode.py:170-193 | Mapped plain text renders as the text; bold, italic and code render as the text inside `b`, `i` and `code` tags |
| MarkdownParser.MappedLinkRenders | src/test_htmlnode.py:195-200 | A mapped link renders as `<a href="URL">text</a>` |
| MarkdownParser.MappedImageRenders | src/test_htmlnode.py:202-208 | A mapped image renders as `<img src="URL" alt="text">` with an empty body and a closing tag |
| TextNodes.EqualIffFieldsEqual | src/test_textnode.py:7-27 | Two text nodes are equal exactly when text, kind and URL all agree |
| TextNodes.DefaultUrlIsNone | src/test_textnode.py:29-31 | A text node built without a URL has none |
| TextNodeExamples.EqualityExamples | src/test_textnode.py:7-31 | The tests' equal and unequal pairs, and the absent default URL |
| HtmlNodeExamples.PropsToHtmlEmpty | src/test_htmlnode.py:9-12 | No attributes serialise to "" |
| HtmlNodeExamples.PropsToHtmlSingle | src/test_htmlnode.py:14-17 | One attribute serialises as ` href="https://example.com"` |
| HtmlNodeExamples.PropsToHtmlMultiple | src/test_htmlnode.py:19-37 | Three attributes serialise as their three pieces in insertion order, with exactly their total length |
| HtmlNodeExamples.LeafToHtmlP | src/test_htmlnode.py:39-41 | `<p>Hello, world!</p>` |
| HtmlNodeExamples.LeafToHtmlWithProps | src/test_htmlnode.py:43-45 | `<a href="https://www.google.com">Click me!</a>` |
| HtmlNodeExamples.LeafToHtmlNoTag | src/test_htmlnode.py:47-49 | A tagless leaf renders as `Just some text` |
| HtmlNodeExamples.LeafToHtmlNoValue | src/test_htmlnode.py:51-53 | A `p` leaf without a value fails with the missing-value error |
| HtmlNodeExamples.ToHtmlWithChildren | src/test_htmlnode.py:56-59 | `<div><span>child</span></div>` |
| HtmlNodeExamples.ToHtmlWithGrandchildren | src/test_htmlnode.py:61-68 | `<div><span><b>grandchild</b></span></div>` |
| HtmlNodeExamples.ParentNoTag | src/test_htmlnode.py:70-73 | A parent without a tag fails with the missing-tag error |
| HtmlNodeExamples.ParentNoChildren | src/test_htmlnode.py:75-78 | A parent without a children list fails with the missing-children error |
| HtmlNodeExamples.ParentWithMultipleChildren | src/test_htmlnode.py:80-90 | `<ul><li>Item 1</li><li>Item 2</li><li>Item 3</li></ul>` |
| HtmlNodeExamples.ParentWithProps | src/test_htmlnode.py:92-99 | `<div class="container" id="main"><span>Hello</span></div>`, which holds every piece the test looks for and ends in `</div>` |
| HtmlNodeExamples.InputRenders | src/test_htmlnode.py:106-112 | An input with an empty value and two attributes renders as `<input`, the attributes, `>` and `</input>` |
| HtmlNodeExamples.FormGroupRenders | src/test_htmlnode.py:104-111 | A form group renders as a `div` with class `form-group` holding the label element, then the input element |
| HtmlNodeExamples.UsernameGroupRenders | src/test_htmlnode.py:104-107 | The user-name group, in full |
| HtmlNodeExamples.PasswordGroupRenders | src/test_htmlnode.py:108-111 | The password group, in full |
| HtmlNodeExamples.SubmitInputRenders | src/test_htmlnode.py:112 | `<input type="submit" value="Login"></input>` |
| HtmlNodeExamples.LoginFormOpenTag | src/test_htmlnode.py:113-119 | `<form action="/login" method="post">` |
| HtmlNodeExamples.ComplexNesting | src/test_htmlnode.py:101-129 | The whole login form, in full, holding every piece the test looks for, in document order |
| HtmlNodeExamples.EmptyChildrenList | src/test_htmlnode.py:131-134 | `<div></div>` |
| HtmlNodeExamples.ParentWithTextAndElements | src/test_htmlnode.py:136-146 | `<p>This is <strong>important</strong> text.</p>` |
| HtmlNodeExamples.NestedParentWithNoLeafChildren | src/test_htmlnode.py:148-152 | `<section><div></div></section>` |
| HtmlNodeExamples.TwoParagraphsRender | src/test_htmlnode.py:158-161 | `<div><p>Paragraph 1</p><p>Paragraph 2</p></div>` |
| HtmlNodeExamples.ParentWithMixedChildTypes | src/test_htmlnode.py:154-167 | `<article><h1>Article Title</h1><div>…</div><footer>Copyright 2023</footer></article>`, in full |
| HtmlNodeExamples.TextToHtmlExamples | src/test_htmlnode.py:170-214 | The exact leaf each test's text node maps to, and the failure for an unsupported kind |

## Left out

- The sources of `htmlnode`, `textnode` and `markdown_parser` are not part of this model. The model follows what `src/test_htmlnode.py` and `src/test_textnode.py` assert of them. Where the tests leave a detail open, the model picks the reading below and says so.
- The base `HTMLNode.to_html` is left out. The tests never render a base node; they only call `props_to_html` on one.
- Exception classes and messages are left out. `ValueError` and the exception for an unsupported kind become the variants of `Err`, and their message texts are not modelled.
- A leaf without a value fails even when it has no tag. The tests only show the tagged case (src/test_htmlnode.py:51-53).
- A parent missing both tag and children reports the missing tag. The tests show each failure alone, so the order of the two checks is a choice.
- HtmlNodes.ChildList stands for Python's optional list of children. It distinguishes an absent list from an empty one, and a datatype of its own lets recursion over children be shown to terminate.
- Attributes are an ordered list of pairs, not a dictionary.
  - Python dictionaries keep insertion order, which the list keeps too.
  - Key uniqueness is not enforced. `HtmlNodes.Lookup` follows dictionary construction: a later pair with the same name wins (`HtmlNodes.LookupLastWins`).
- HtmlNodes.PropsToHtml: only lists with distinct names (`HtmlNodes.DistinctNames`) stand for Python dictionaries. A list that repeats a name serialises every pair, so `[("a", "1"), ("a", "2")]` gives ` a="1" a="2"`, where the dictionary `{"a": "1", "a": "2"}` would hold one entry and give ` a="2"`.
  - A node built without attributes (`None`) has the empty list.
- MarkdownParser.UrlText: a link or image whose URL is absent gets the attribute value `None`, the way Python formats the absent value when it renders the attribute. The tests always supply a URL, so this is an assumption.
- MarkdownParser.MappedAttributes: for a link or image without a URL, Python stores `None` itself in the dictionary, so `props["href"]` is `None`; the model stores the string `"None"`, so the lookup gives `Some("None")`. Only the rendering of that attribute agrees with Python, because attribute values are strings here.
- The `assertIn` substring checks (src/test_htmlnode.py:30-37, 95-99, 116-129) are stated as exact renderings. The exact string contains every piece the test looks for.
- HTML escaping is not modelled. Values and attribute values are emitted as they are, and nothing in the tests escapes them.
- `src/main.py` is left out: filesystem plumbing that deletes and copies directories and generates pages. Also left out are the static-file copier, the page generator, and the inline splitter and block classifier of `markdown_parser`. None of them is exercised by the modelled tests.
