/** The equalities and inequalities the text node tests expect. */
module TextNodeExamples {
  import opened Wrappers
  import opened TextNodes

  lemma EqualityExamples()
    ensures TextNode("This is a text node", Bold) == TextNode("This is a text node", Bold)
    ensures TextNode("This is a text node", Bold) != TextNode("This is a different text node", Bold)
    ensures TextNode("This is a text node", Bold) != TextNode("This is a text node", Italic)
    ensures TextNode("Link text", Link) != TextNode("Link text", Link, Some("https://www.example.com"))
    ensures TextNode("Text", Text).url == None
  {
  }
}
