/** The children of a container element, as far as the components write them. */
module Dom {

  /** A child node: markup parsed from an `innerHTML` string, or a text node. */
  datatype Node = Markup(html: string) | TextNode(text: string)

  /** The children a container holds after `container.innerHTML = html`. */
  function SetInnerHtml(html: string): seq<Node> {
    if html == "" then [] else [Markup(html)]
  }

  /** The children a container holds after `container.textContent = text`. */
  function SetTextContent(text: string): seq<Node> {
    if text == "" then [] else [TextNode(text)]
  }

  /**
   * The markup strings the children were parsed from, concatenated in order;
   * text nodes contribute nothing (this is not the DOM's `innerHTML` getter,
   * which would also serialise them).
   */
  function MarkupOf(children: seq<Node>): string {
    if children == [] then ""
    else (if children[0].Markup? then children[0].html else "") + MarkupOf(children[1..])
  }

  /**
   * The text of the text-node children only, concatenated in order (this is
   * not the DOM's `textContent` getter, which would include parsed markup's text).
   */
  function TextNodesOf(children: seq<Node>): string {
    if children == [] then ""
    else (if children[0].TextNode? then children[0].text else "") + TextNodesOf(children[1..])
  }

  /** Writing `innerHTML` replaces whatever was there: the children hold exactly the markup written and no text node. */
  lemma InnerHtmlRoundTrip(html: string)
    ensures MarkupOf(SetInnerHtml(html)) == html
    ensures TextNodesOf(SetInnerHtml(html)) == ""
  {
  }

  /** Writing `textContent` replaces whatever was there: the children are exactly that text and no markup. */
  lemma TextContentRoundTrip(text: string)
    ensures TextNodesOf(SetTextContent(text)) == text
    ensures MarkupOf(SetTextContent(text)) == ""
  {
  }
}
