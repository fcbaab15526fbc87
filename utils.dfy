/** Address builders: pure string templates over a project name and an `external` flag. */
module Utils {

  const BasePagesUrl: string := "https://robopro.github.io/"

  const ExternalRepoRoot: string := "https://github.com/robopro/"
  const GalleryRepoRoot: string := "https://github.com/robopro/gallery/tree/main/projects/"
  const RawRoot: string := "https://raw.githubusercontent.com/robopro/"
  const ProjectsDir: string := "projects/"

  predicate StartsWith(s: string, prefix: string) {
    |prefix| <= |s| && s[..|prefix|] == prefix
  }

  predicate EndsWith(s: string, suffix: string) {
    |suffix| <= |s| && s[|s| - |suffix|..] == suffix
  }

  /**
   * Link to the project's repository: its own repository when external, its
   * folder in the gallery repository otherwise. The flag defaults to false,
   * as `getRepoUrl` in `src/utils.ts` declares it.
   */
  function GetRepoUrl(projectName: string, external: bool := false): (url: string)
    ensures StartsWith(url, if external then ExternalRepoRoot else GalleryRepoRoot)
    ensures StartsWith(url, ExternalRepoRoot) && EndsWith(url, projectName)
  {
    if external then ExternalRepoRoot + projectName else GalleryRepoRoot + projectName
  }

  /** Path of the inline demo page of an internal project. */
  function GetInternalProjectUrl(projectName: string): (url: string)
    ensures StartsWith(url, ProjectsDir) && EndsWith(url, ".html")
    ensures |url| == 2 * |projectName| + 15
  {
    ProjectsDir + projectName + "/" + projectName + ".html"
  }

  /** Where the project's README is fetched from; the flag defaults to false. */
  function GetReadmeUrl(projectName: string, external: bool := false): (url: string)
    ensures EndsWith(url, "/README.md")
    ensures external <==> StartsWith(url, "https://")
  {
    if external then
      var url := RawRoot + projectName + "/main/README.md";
      assert RawRoot == "https://" + "raw.githubusercontent.com/robopro/";
      assert url == "https://" + ("raw.githubusercontent.com/robopro/" + projectName + "/main/README.md");
      url
    else
      var url := ProjectsDir + projectName + "/README.md";
      assert url[0] == ProjectsDir[0] != "https://"[0];
      url
  }

  lemma InfixCancels(p: string, a: string, b: string, q: string)
    requires |a| == |b| && p + a + q == p + b + q
    ensures a == b
  {
    assert a == (p + a + q)[|p|..|p| + |a|];
    assert b == (p + b + q)[|p|..|p| + |b|];
  }

  /** For a fixed flag the repository link determines the project name. */
  lemma RepoUrlInjective(a: string, b: string, external: bool)
    requires GetRepoUrl(a, external) == GetRepoUrl(b, external)
    ensures a == b
  {
  }

  /** The two link forms of one project never coincide: the gallery form is strictly longer. */
  lemma RepoUrlFormsDiffer(n: string)
    ensures GetRepoUrl(n, false) != GetRepoUrl(n, true)
    ensures |GetRepoUrl(n, false)| > |GetRepoUrl(n, true)|
  {
  }

  /** The inline demo path determines the project name. */
  lemma InternalProjectUrlInjective(a: string, b: string)
    requires GetInternalProjectUrl(a) == GetInternalProjectUrl(b)
    ensures a == b
  {
    assert |a| == |b|;
    var n := |ProjectsDir|;
    assert a == GetInternalProjectUrl(a)[n..n + |a|];
    assert b == GetInternalProjectUrl(b)[n..n + |b|];
  }

  /** For a fixed flag the README address determines the project name. */
  lemma ReadmeUrlInjective(a: string, b: string, external: bool)
    requires GetReadmeUrl(a, external) == GetReadmeUrl(b, external)
    ensures a == b
  {
    if external {
      InfixCancels(RawRoot, a, b, "/main/README.md");
    } else {
      InfixCancels(ProjectsDir, a, b, "/README.md");
    }
  }

  /** An external README address never equals an internal one, whatever the two names. */
  lemma ReadmeUrlFormsDisjoint(a: string, b: string)
    ensures GetReadmeUrl(a, true) != GetReadmeUrl(b, false)
  {
  }
}
