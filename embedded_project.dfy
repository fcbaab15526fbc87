/** The inline demo embedder: fetches a project's own page and writes it into its container. */
module EmbeddedDemo {
  import opened Utils
  import opened Fetch
  import opened Dom

  /** The demo's fallback text: the README's wording with a final period, as one paragraph. */
  const UnknownDemoError: string := "<p>" + UnknownErrorText + "." + "</p>"

  /**
   * What `#fetchProject` resolves to: nothing for an empty name (no request is
   * made), the page for an ok response, and otherwise the error message in a
   * paragraph.
   */
  function FetchProject(projectname: string, o: FetchOutcome): (html: string)
    ensures projectname == "" ==> html == ""
    ensures projectname != "" && o.Response? && IsOk(o.status) ==> html == o.body
    ensures projectname != "" && o.Response? && !IsOk(o.status) ==> html == "<p>" + HttpErrorMessage(o.status) + "</p>"
    ensures projectname != "" && o.ThrownError? ==> html == "<p>" + o.message + "</p>"
    ensures projectname != "" && o.ThrownNonError? ==> html == UnknownDemoError
  {
    if projectname != "" then
      match Settle(o)
      case Body(text) => text
      case Caught(ErrorValue(message)) => "<p>" + message + "</p>"
      case Caught(NonError) => UnknownDemoError
    else ""
  }

  /** The requests `#fetchProject` makes: one, to the inline demo path, unless the name is empty. */
  function ProjectRequests(projectname: string): (urls: seq<string>)
    ensures projectname == "" <==> urls == []
    ensures |urls| <= 1
    ensures forall u :: u in urls ==> u == GetInternalProjectUrl(projectname)
    ensures forall u :: u in urls ==> StartsWith(u, ProjectsDir) && EndsWith(u, ".html")
  {
    if projectname != "" then [GetInternalProjectUrl(projectname)] else []
  }

  /** Every failure is shown as one paragraph. */
  lemma FailureIsParagraph(projectname: string, o: FetchOutcome)
    requires projectname != "" && Settle(o).Caught?
    ensures StartsWith(FetchProject(projectname, o), "<p>") && EndsWith(FetchProject(projectname, o), "</p>")
  {
  }

  class EmbeddedProject {
    var projectname: string
    /** The children of the shadow container. */
    var container: seq<Node>
    /** The addresses fetched so far, in order. */
    ghost var requests: seq<string>

    /** The constructor stores the name and runs `setInnerHTML`; `outcome` is how that fetch ends. */
    constructor (projectname: string, outcome: FetchOutcome)
      ensures this.projectname == projectname
      ensures container == SetInnerHtml(FetchProject(projectname, outcome))
      ensures requests == ProjectRequests(projectname)
    {
      this.projectname := projectname;
      container := [];
      requests := [];
      new;
      SetInnerHTML(outcome);
    }

    /**
     * `setInnerHTML`: empties the container, then writes what the fetch resolved
     * to. The old content is replaced, never appended to.
     */
    method SetInnerHTML(outcome: FetchOutcome)
      modifies this
      ensures projectname == old(projectname)
      ensures container == SetInnerHtml(FetchProject(projectname, outcome))
      ensures requests == old(requests) + ProjectRequests(projectname)
    {
      while container != []
        invariant projectname == old(projectname) && requests == old(requests)
        decreases |container|
      {
        container := container[1..];
      }
      requests := requests + ProjectRequests(projectname);
      var html := FetchProject(projectname, outcome);
      container := SetInnerHtml(html);
    }

    /** `set projectname`: only stores the name; the container keeps its content and nothing is fetched. */
    method SetProjectname(projectname: string)
      modifies this
      ensures this.projectname == projectname
      ensures container == old(container) && requests == old(requests)
    {
      this.projectname := projectname;
    }

    method AttributeChangedCallback(name: string, oldValue: string, newValue: string)
      modifies this
      ensures projectname == if name == "projectname" && newValue != oldValue then newValue else old(projectname)
      ensures container == old(container) && requests == old(requests)
    {
      if name == "projectname" && newValue != oldValue {
        SetProjectname(newValue);
      }
    }
  }
}
