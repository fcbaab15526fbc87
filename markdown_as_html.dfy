/** The markdown holder: keeps a markdown string and renders it into its container. */
module MarkdownView {
  import opened Wrappers
  import opened Dom

  /**
   * What the container shows for this markdown: the converter's HTML when a
   * converter was built, the markdown verbatim as text otherwise.
   */
  function Rendered(converter: Option<string -> string>, markdown: string): (children: seq<Node>)
    ensures converter.Some? ==> MarkupOf(children) == converter.value(markdown) && TextNodesOf(children) == ""
    ensures converter.None? ==> TextNodesOf(children) == markdown && MarkupOf(children) == ""
  {
    match converter
    case Some(makeHtml) =>
      InnerHtmlRoundTrip(makeHtml(markdown));
      SetInnerHtml(makeHtml(markdown))
    case None =>
      TextContentRoundTrip(markdown);
      SetTextContent(markdown)
  }

  class MarkdownAsHTML {
    /** The markdown converter's `makeHtml`; `None` when constructing the converter threw. */
    const converter: Option<string -> string>
    var markdown: string
    var children: seq<Node>

    ghost predicate Valid()
      reads this
    {
      children == Rendered(converter, markdown)
    }

    constructor (markdown: string, converter: Option<string -> string>)
      ensures this.markdown == markdown && this.converter == converter
      ensures Valid()
    {
      this.converter := converter;
      this.markdown := markdown;
      children := [];
      new;
      RenderHTML();
    }

    /** Removes every child, then writes the current markdown: the old display leaves no trace. */
    method RenderHTML()
      modifies this
      ensures markdown == old(markdown)
      ensures Valid()
    {
      while children != []
        invariant markdown == old(markdown)
        decreases |children|
      {
        children := children[1..];
      }
      match converter
      case Some(makeHtml) =>
        children := SetInnerHtml(makeHtml(markdown));
      case None =>
        children := SetTextContent(markdown);
    }

    /** `set markdown`: stores the value and re-renders, so the last assignment wins. */
    method SetMarkdown(markdown: string)
      modifies this
      ensures this.markdown == markdown
      ensures Valid()
    {
      this.markdown := markdown;
      RenderHTML();
    }

    method AttributeChangedCallback(name: string, oldValue: string, newValue: string)
      modifies this
      ensures if newValue != oldValue && name == "markdown"
              then markdown == newValue && Valid()
              else markdown == old(markdown) && children == old(children)
    {
      if newValue != oldValue && name == "markdown" {
        SetMarkdown(newValue);
      }
    }
  }
}
