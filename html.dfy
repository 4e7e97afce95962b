/**
 * The parsed page as the crawler queries it. The HTML parser itself is outside
 * the model; a document is reduced to the four lookups the crawler performs.
 */
module Html {
  import opened Wrappers

  /**
   * One direct child of the content division: its tag name (the empty string for
   * text nodes and comments, which have no tag) and its text.
   */
  datatype Child = Child(name: string, text: string)

  datatype Document = Document(
    /** Text of the element with id "firstHeading", if there is one. */
    firstHeading: Option<string>,
    /** Children, in order, of the first `div.mw-parser-output`, if there is one. */
    content: Option<seq<Child>>,
    /** Texts of the `span.toctext` items inside the element with id "toc", if there is one. */
    toc: Option<seq<string>>,
    /** The `href` attribute of every `<a>` of the whole document, in document order. */
    anchors: seq<Option<string>>)
}
