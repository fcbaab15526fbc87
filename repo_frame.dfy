/** The frame embedder: points an iframe at the project's externally hosted page. */
module FrameDemo {
  import opened Utils

  class RepoFrame {
    var projectName: string
    /** The `src` of the shadow iframe. */
    var iframeSrc: string

    /** The frame always points at the hosting base address followed by the current name. */
    ghost predicate Valid()
      reads this
    {
      iframeSrc == BasePagesUrl + projectName
    }

    /** Construction with the default name `""` points the frame at `https://robopro.github.io/`. */
    constructor (projectName: string)
      ensures this.projectName == projectName
      ensures Valid()
      ensures projectName == "" ==> iframeSrc == "https://robopro.github.io/"
    {
      this.projectName := projectName;
      iframeSrc := "";
      new;
      SetIframeSource();
    }

    method SetIframeSource()
      modifies this
      ensures projectName == old(projectName)
      ensures Valid()
    {
      iframeSrc := BasePagesUrl + projectName;
    }

    /**
     * `set projectName`: the new state is determined by the name alone, so
     * setting the same name twice leaves the state setting it once does.
     */
    method SetProjectName(projectName: string)
      modifies this
      ensures this.projectName == projectName
      ensures Valid()
    {
      this.projectName := projectName;
      SetIframeSource();
    }

    method AttributeChangedCallback(name: string, oldValue: string, newValue: string)
      requires Valid()
      modifies this
      ensures Valid()
      ensures projectName == if name == "projectname" && newValue != oldValue then newValue else old(projectName)
      ensures iframeSrc == if name == "projectname" && newValue != oldValue then BasePagesUrl + newValue else old(iframeSrc)
    {
      if name == "projectname" && newValue != oldValue {
        SetProjectName(newValue);
      }
    }
  }
}
