/**
 * The project detail view: a navigation bar with the repository link and the
 * Readme/Demo tabs, the README (through the markdown holder) and the demo
 * container. It also keeps a heading element whose text it sets, but that
 * element is never attached to the shadow root, so the title is not shown.
 */
module DetailView {
  import opened Wrappers
  import opened Utils
  import opened Types
  import opened Fetch
  import opened Dom
  import opened MarkdownView
  import EmbeddedDemo

  /** What the demo container holds: a frame embedder or an inline embedder for a project. */
  datatype DemoChild = Frame(name: string) | Embedded(name: string)

  /** The visible state of the view; a `true` flag means the element carries the `hidden` class. */
  datatype PanelState = PanelState(
    /** The text of the (unattached) heading element. */
    heading: string,
    navHidden: bool,
    contentHidden: bool,
    readmeHidden: bool,
    demoHidden: bool,
    repoHref: string,
    demo: seq<DemoChild>)

  /** The state `#reset` leaves: everything hidden but the README region, no link, no demo. */
  const Cleared: PanelState := PanelState("", true, true, false, true, "#", [])

  /** The demo mounted for a project whose menu is shown. */
  function Mount(p: Project): DemoChild {
    if p.external then Frame(p.projectName) else Embedded(p.projectName)
  }

  /**
   * The state the synchronous part of `#buildProject` leaves: it starts from
   * the reset state, so nothing of the earlier state survives.
   */
  function Selected(project: Option<Project>): (v: PanelState)
    ensures project.None? ==> v == Cleared
    ensures project.Some? ==>
      v.heading == project.value.title && !v.contentHidden && !v.readmeHidden && v.demoHidden
    ensures project.Some? && project.value.hideMenu ==> v.navHidden && v.repoHref == "#" && v.demo == []
    ensures project.Some? && !project.value.hideMenu ==>
      && !v.navHidden
      && v.repoHref == GetRepoUrl(project.value.projectName, false)
      && v.demo == [if project.value.external then Frame(project.value.projectName)
                    else Embedded(project.value.projectName)]
  {
    match project
    case None => Cleared
    case Some(p) =>
      var v := Cleared.(heading := p.title);
      var v := if p.hideMenu then v
               else v.(navHidden := false, repoHref := GetRepoUrl(p.projectName), demo := v.demo + [Mount(p)]);
      v.(contentHidden := false, demoHidden := true)
  }

  /** `#onReadmeClick`. */
  function ShowReadme(v: PanelState): PanelState {
    v.(readmeHidden := false, demoHidden := true)
  }

  /** `#onDemoClick`. */
  function ShowDemo(v: PanelState): PanelState {
    v.(readmeHidden := true, demoHidden := false)
  }

  /**
   * The view shows the selected project (or nothing), and exactly one of the
   * README and demo regions is visible; only that choice is free.
   */
  ghost predicate Reflects(v: PanelState, project: Option<Project>) {
    v.readmeHidden == !v.demoHidden && ShowReadme(v) == Selected(project)
  }

  /** What every state reachable from a selection satisfies. */
  lemma ReflectsFacts(v: PanelState, project: Option<Project>)
    requires Reflects(v, project)
    ensures |v.demo| <= 1
    ensures v.demo != [] ==> !v.navHidden && project.Some? && v.demo == [Mount(project.value)]
    ensures v.navHidden ==> v.repoHref == "#"
    ensures v.contentHidden <==> project.None?
  {
  }

  /** Both tab handlers keep the view in step with the selection. */
  lemma TabsPreserveReflects(v: PanelState, project: Option<Project>)
    requires Reflects(v, project)
    ensures Reflects(ShowReadme(v), project) && Reflects(ShowDemo(v), project)
    ensures ShowReadme(v).demo == v.demo && ShowDemo(v).demo == v.demo
  {
  }

  /** A fresh selection is consistent and always starts on the README tab, whatever the tab was before. */
  lemma SelectionShowsReadme(project: Option<Project>)
    ensures Reflects(Selected(project), project)
    ensures ShowReadme(Selected(project)) == Selected(project)
  {
  }

  /**
   * The repository link ignores the `external` flag: an external project still
   * links to the gallery tree, never to its own repository.
   */
  lemma RepoLinkIgnoresExternal(p: Project)
    requires !p.hideMenu && p.external
    ensures Selected(Some(p)).repoHref == GetRepoUrl(p.projectName, false)
    ensures Selected(Some(p)).repoHref != GetRepoUrl(p.projectName, true)
  {
  }

  /**
   * What `#fetchReadme` resolves to: the README text for an ok response, the
   * error message otherwise, and a fixed text when no project is selected.
   */
  function FetchReadme(project: Option<Project>, o: FetchOutcome): (text: string)
    ensures project.None? ==> text == "No project selected"
    ensures project.Some? && o.Response? && IsOk(o.status) ==> text == o.body
    ensures project.Some? && o.Response? && !IsOk(o.status) ==> text == HttpErrorMessage(o.status)
    ensures project.Some? && o.ThrownError? ==> text == o.message
    ensures project.Some? && o.ThrownNonError? ==> text == UnknownErrorText
  {
    if project.Some? then
      match Settle(o)
      case Body(text) => text
      case Caught(ErrorValue(message)) => message
      case Caught(NonError) => UnknownErrorText
    else "No project selected"
  }

  /** The address `#fetchReadme` requests: it does honour the `external` flag. */
  function ReadmeRequest(p: Project): (url: string)
    ensures p.external <==> StartsWith(url, "https://")
    ensures EndsWith(url, "/README.md")
  {
    GetReadmeUrl(p.projectName, p.external)
  }

  /**
   * The inline demo shows a fetch error as the README would, wrapped in a
   * paragraph, except for a thrown non-`Error`, whose demo text carries an
   * extra final period.
   */
  lemma DemoAndReadmeErrorTexts(p: Project, o: FetchOutcome)
    requires p.projectName != "" && Settle(o).Caught?
    ensures !o.ThrownNonError? ==>
      EmbeddedDemo.FetchProject(p.projectName, o) == "<p>" + FetchReadme(Some(p), o) + "</p>"
    ensures o.ThrownNonError? ==>
      EmbeddedDemo.FetchProject(p.projectName, o) != "<p>" + FetchReadme(Some(p), o) + "</p>"
  {
  }

  class PortfolioPiece {
    var project: Option<Project>
    var headingText: string
    var navHidden: bool
    var contentHidden: bool
    /** Whether the markdown holder carries the `hidden` class. */
    var readmeHidden: bool
    var demoHidden: bool
    var repoHref: string
    var demo: seq<DemoChild>
    const readme: MarkdownAsHTML
    /** The README addresses fetched so far, in order. */
    ghost var readmeRequests: seq<string>

    ghost function State(): PanelState
      reads this
    {
      PanelState(headingText, navHidden, contentHidden, readmeHidden, demoHidden, repoHref, demo)
    }

    ghost predicate Valid()
      reads this, readme
    {
      Reflects(State(), project) && readme.Valid()
    }

    /**
     * Builds the parts, then runs `#buildProject`. `converter` is the markdown
     * holder's converter; `outcome` is how the README fetch ends, if one is made.
     */
    constructor (project: Option<Project>, converter: Option<string -> string>, outcome: FetchOutcome)
      ensures this.project == project
      ensures fresh(readme)
      ensures State() == Selected(project)
      ensures readme.converter == converter
      ensures project.None? ==> readme.markdown == "" && readmeRequests == []
      ensures project.Some? ==> readme.markdown == FetchReadme(project, outcome)
      ensures project.Some? ==> readmeRequests == [ReadmeRequest(project.value)]
      ensures Valid()
    {
      this.project := project;
      headingText := "";
      navHidden := false;
      contentHidden := false;
      readmeHidden := false;
      demoHidden := false;
      repoHref := "#";
      demo := [];
      readmeRequests := [];
      readme := new MarkdownAsHTML("", converter);
      new;
      BuildProject(outcome);
    }

    /** `#reset`: back to the cleared state; the selection and the README text are kept. */
    method Reset()
      modifies this
      ensures State() == Cleared
      ensures project == old(project) && readmeRequests == old(readmeRequests)
    {
      headingText := "";
      navHidden := true;
      contentHidden := true;
      readmeHidden := false;
      demoHidden := true;
      repoHref := "#";
      while demo != []
        invariant headingText == "" && navHidden && contentHidden && !readmeHidden && demoHidden && repoHref == "#"
        invariant project == old(project) && readmeRequests == old(readmeRequests)
        decreases |demo|
      {
        demo := demo[1..];
      }
    }

    /**
     * `#buildProject`: resets, shows the selected project, and, when one is
     * selected, fetches its README (also for a project that hides its menu)
     * and hands the text to the markdown holder. Without a project nothing is
     * fetched and the README text is left as it was.
     */
    method BuildProject(outcome: FetchOutcome)
      requires readme.Valid()
      modifies this, readme
      ensures project == old(project)
      ensures State() == Selected(project)
      ensures project.None? ==> readmeRequests == old(readmeRequests)
      ensures project.None? ==> readme.markdown == old(readme.markdown) && readme.children == old(readme.children)
      ensures project.Some? ==> readmeRequests == old(readmeRequests) + [ReadmeRequest(project.value)]
      ensures project.Some? ==> readme.markdown == FetchReadme(project, outcome)
      ensures Valid()
    {
      Reset();
      if project.Some? {
        var p := project.value;
        headingText := p.title;
        if !p.hideMenu {
          navHidden := false;
          repoHref := GetRepoUrl(p.projectName);
          if p.external {
            demo := demo + [Frame(p.projectName)];
          } else {
            demo := demo + [Embedded(p.projectName)];
          }
        }
        contentHidden := false;
        demoHidden := true;
        readmeRequests := readmeRequests + [ReadmeRequest(p)];
        var text := FetchReadme(project, outcome);
        readme.SetMarkdown(text);
      }
    }

    /** `set project`: replaces the selection and rebuilds. */
    method SetProject(p: Project, outcome: FetchOutcome)
      requires readme.Valid()
      modifies this, readme
      ensures project == Some(p)
      ensures State() == Selected(Some(p))
      ensures readmeRequests == old(readmeRequests) + [ReadmeRequest(p)]
      ensures readme.markdown == FetchReadme(Some(p), outcome)
      ensures Valid()
    {
      project := Some(p);
      BuildProject(outcome);
    }

    /** `#onReadmeClick`: shows the README region, hides the demo; nothing else changes. */
    method OnReadmeClick()
      requires Valid()
      modifies this
      ensures State() == ShowReadme(old(State()))
      ensures project == old(project) && readmeRequests == old(readmeRequests)
      ensures Valid()
    {
      TabsPreserveReflects(State(), project);
      readmeHidden := false;
      demoHidden := true;
    }

    /** `#onDemoClick`: hides the README region, shows the demo; nothing else changes. */
    method OnDemoClick()
      requires Valid()
      modifies this
      ensures State() == ShowDemo(old(State()))
      ensures project == old(project) && readmeRequests == old(readmeRequests)
      ensures Valid()
    {
      TabsPreserveReflects(State(), project);
      readmeHidden := true;
      demoHidden := false;
    }
  }
}
