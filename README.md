# Portfolio gallery: a verified model of its view logic

The gallery is a small single-page portfolio: a navigation menu lists the
projects of a registry, and a detail view shows, for the selected project,
a link to its repository, its README (markdown converted to HTML) and a demo,
either an inline page fetched from the site or an iframe on the external
hosting origin. This project models, in Dafny, everything in it that is logic
rather than browser plumbing:

- `Utils` (`utils.dfy`): the address builders and the fixed hosting base.
- `Types` (`types.dfy`): the duck-typed `isProject`/`isProjectArray`
  validators over a model of JavaScript values, the typed project record, and
  the bundled registry.
- `Fetch` (`fetch.dfy`): a fetch seen from the awaiting code — a response with
  a status and body, a thrown `Error`, or another thrown value — and the
  `try` block both fetch helpers share (`response.ok` means status 200..299).
- `Dom` (`dom.dfy`): container children written through `innerHTML` or
  `textContent`.
- `Decimal` (`decimal.dfy`): the runtime conversions the code leans on,
  `${n}` for a non-negative integer and `parseInt` without a radix (white space,
  sign, `0x` prefix, longest digit run, NaN as `None`), with the round trip.
- `MarkdownView` (`markdown_as_html.dfy`): the markdown holder. The converter is
  a constructor argument `Option<string -> string>`: `Some(makeHtml)` when the
  converter was built, `None` when its construction threw; nothing is assumed
  about `makeHtml`.
- `EmbeddedDemo` (`embedded_project.dfy`) and `FrameDemo` (`repo_frame.dfy`):
  the two demo embedders.
- `Navigation` (`portfolio_navigation.dfy`): the menu built by index, the
  click listeners of its buttons (attached by each build, removed on
  disconnect while the items stay), and the click decoding.
- `DetailView` (`portfolio_piece.dfy`): the detail view, a class over the
  text of its heading element (never attached, so not shown), the `hidden` flags of the navigation bar, content area, README
  region and demo region, the repository link, the demo children, the
  selection, and the markdown holder it owns.

A fetch is never performed: each operation that awaits one takes the outcome as
a parameter and appends the requested address to a ghost request log, so that
"nothing is fetched" and "it is fetched from here" can be stated.

The model keeps the code's quirks: the repository link is built with the
`external` flag left at its default, so external projects link to the gallery
tree; the `projectname` setter of the inline embedder names `setInnerHTML`
without calling it, so it neither refetches nor touches the container; the
README is fetched for projects that hide their menu; the menu is never
cleared, so every connect appends another copy whose earlier items stay but
no longer dispatch; and the two "Unknown
error" texts differ (the demo's has a final period and paragraph tags).

## Model

| member | source | states |
|---|---|---|
| Utils.GetRepoUrl | src/utils.ts:3-9 | the link starts with the owner's own repository root when external and with the gallery repository's `projects/` tree otherwise, and ends with the project name |
| Utils.GetInternalProjectUrl | src/utils.ts:11-13 | the inline demo path starts with `projects/`, ends with `.html`, and is 15 characters plus twice the name long |
| Utils.GetReadmeUrl | src/utils.ts:15-21 | the README address ends with `/README.md`, and it is an `https://` address exactly when the project is external |
| Utils.RepoUrlInjective | src/utils.ts:3-9 | for a fixed flag, equal repository links mean equal project names |
| Utils.RepoUrlFormsDiffer | src/utils.ts:4-7 | the gallery-tree link of a name is longer than, so never equal to, its external link |
| Utils.InternalProjectUrlInjective | src/utils.ts:11-13 | equal inline demo paths mean equal project names |
| Utils.ReadmeUrlInjective | src/utils.ts:15-21 | for a fixed flag, equal README addresses mean equal project names |
| Utils.ReadmeUrlFormsDisjoint | src/utils.ts:16-19 | no external README address equals an internal one, for any two names |
| Decimal.NatToString | src/components/PortfolioNavigation.ts:72 | `${i}` is a non-empty run of decimal digits with no leading zero except for 0 itself |
| Decimal.ParseIntOfNatToString | src/components/PortfolioNavigation.ts:72-80 | `parseInt` of `${i}` gives back i, for every index i |
| Types.IsProjectIff | src/types.ts:5-14 | `isProject(v)` holds exactly when v is a non-null object (plain or array) whose `title` and `projectName` are strings and whose `external`, if present, is boolean or undefined |
| Types.NonObjectsRejected | src/types.ts:6-7 | `null`, `undefined`, primitives and functions are rejected |
| Types.OtherKeysIrrelevant | src/types.ts:5-14 | setting any key other than title, projectName and external (hideMenu included) never changes the verdict |
| Types.BadExternalRejected | src/types.ts:12-14 | a present `external` that is neither boolean nor undefined makes the value invalid |
| Types.AllProjectsIff | src/types.ts:17 | `every(isProject)` holds exactly when each element present is a project; holes are skipped |
| Types.IsProjectArrayIff | src/types.ts:16-17 | `isProjectArray(v)` holds exactly when v is an array all of whose present elements are projects; the empty array and an array of holes only (`new Array(3)`) are accepted |
| Types.ToProject | src/components/PortfolioPiece.ts:131 | the record read from a valid value has its title and name, `external` true exactly when it is the boolean true, and `hideMenu` as the truthiness of whatever is stored |
| Types.RegistryIsValid | src/app.js:422-437 | the bundled three-entry registry passes `isProjectArray` and reads as the records About Me (hides its menu), Perspective and PederPong2.0 (external) |
| Fetch.Settle | src/components/PortfolioPiece.ts:169-177 | the `try` yields the body exactly for an ok response; a non-ok response throws the HTTP error message; a thrown `Error` is caught with its message; a non-`Error` throw is recognised as such |
| Fetch.HttpErrorNamesStatus | src/components/PortfolioPiece.ts:176 | the status code can be parsed back out of the HTTP error message |
| Dom.InnerHtmlRoundTrip | src/components/EmbeddedProject.ts:35 | after writing `innerHTML`, the container's markup is exactly the string written and it holds no text nodes |
| Dom.TextContentRoundTrip | src/components/MarkdownAsHTML.ts:55 | after writing `textContent`, the container's text is exactly the string written and it holds no markup |
| MarkdownView.Rendered | src/components/MarkdownAsHTML.ts:50-56 | with a converter the container holds `makeHtml(markdown)` as markup; without one it holds the markdown verbatim as text |
| MarkdownView.MarkdownAsHTML.constructor | src/components/MarkdownAsHTML.ts:8-37 | stores the markdown and the converter (absent when building it threw) and renders |
| MarkdownView.MarkdownAsHTML.RenderHTML | src/components/MarkdownAsHTML.ts:45-57 | removes all children, then the display is a function of the current markdown alone |
| MarkdownView.MarkdownAsHTML.SetMarkdown | src/components/MarkdownAsHTML.ts:59-62 | stores the value and re-renders, so the last assignment wins |
| MarkdownView.MarkdownAsHTML.AttributeChangedCallback | src/components/MarkdownAsHTML.ts:39-43 | acts only for `markdown` with a changed value, and then as the setter; otherwise nothing changes |
| EmbeddedDemo.FetchProject | src/components/EmbeddedProject.ts:38-60 | empty name gives `""`; ok response gives the body; HTTP failure, thrown `Error` and other throws give `<p>HTTP error, status = N</p>`, `<p>message</p>` and `<p>Unknown error - See console for details.</p>` |
| EmbeddedDemo.ProjectRequests | src/components/EmbeddedProject.ts:39-42 | at most one request is made, exactly when the name is non-empty, and it is to the project's inline demo path `projects/<name>/<name>.html` |
| EmbeddedDemo.FailureIsParagraph | src/components/EmbeddedProject.ts:49-56 | every failure is displayed as one `<p>` paragraph |
| EmbeddedDemo.EmbeddedProject.constructor | src/components/EmbeddedProject.ts:9-21 | stores the name, fetches its page (nothing for the empty default) and displays the result |
| EmbeddedDemo.EmbeddedProject.SetInnerHTML | src/components/EmbeddedProject.ts:29-36 | empties the container, then it holds exactly the fetched text (replace, not append); the request, if any, is logged |
| EmbeddedDemo.EmbeddedProject.SetProjectname | src/components/EmbeddedProject.ts:62-65 | stores the name; the container keeps its content and nothing is fetched |
| EmbeddedDemo.EmbeddedProject.AttributeChangedCallback | src/components/EmbeddedProject.ts:23-27 | changes the name only for `projectname` with a changed value; never touches the container or fetches |
| FrameDemo.RepoFrame.constructor | src/components/RepoFrame.ts:9-30 | the iframe points at the hosting base followed by the name; the empty default gives `https://robopro.github.io/` |
| FrameDemo.RepoFrame.SetIframeSource | src/components/RepoFrame.ts:38-40 | re-establishes `src == basePagesUrl + name` |
| FrameDemo.RepoFrame.SetProjectName | src/components/RepoFrame.ts:42-45 | the new state is the name and its address alone, so setting a name twice equals setting it once |
| FrameDemo.RepoFrame.AttributeChangedCallback | src/components/RepoFrame.ts:32-36 | acts only for `projectname` with a changed value; otherwise name and `src` stay |
| Navigation.RepeatedLength | src/components/PortfolioNavigation.ts:53-67 | k builds leave k times the number of projects in the list |
| Navigation.RepeatedAppend | src/components/PortfolioNavigation.ts:64-67 | one more build appends one more full menu at the end of the list |
| Navigation.RepeatedAt | src/components/PortfolioNavigation.ts:64-76 | entry c·n+i of k copies of a menu of n entries is menu entry i |
| Navigation.BuiltEntryRoundTrip | src/components/PortfolioNavigation.ts:72-80 | every built entry's value parses back to the index of the project whose title it carries |
| Navigation.PortfolioNavigation.constructor | src/components/PortfolioNavigation.ts:7-10 | the given projects, or none when constructed without; the list starts empty |
| Navigation.PortfolioNavigation.ConnectedCallback | src/components/PortfolioNavigation.ts:53-55 | appends another full menu of listening buttons without clearing, keeping the list equal to one menu per connect, with earlier silenced items left silenced |
| Navigation.PortfolioNavigation.BuildMenu | src/components/PortfolioNavigation.ts:64-76 | appends, in order, one item per project: value `${i}`, label the title of project i, click listener attached |
| Navigation.PortfolioNavigation.DisconnectedCallback | src/components/PortfolioNavigation.ts:57-62 | removes the click listener of every item in the list, keeping the items and their labels |
| Navigation.PortfolioNavigation.OnProjectClick | src/components/PortfolioNavigation.ts:78-90 | a project is dispatched exactly when the target is a button whose value parses to an index of an existing project, and it is that project |
| Navigation.ListLength | src/components/PortfolioNavigation.ts:53-67 | after k connects the list has k·|projects| entries |
| Navigation.ClickOnEntryDispatches | src/components/PortfolioNavigation.ts:57-90 | item c·n+i of the list shows the title of project i; a click on it dispatches project i when the item was built after the last disconnect, and nothing when its listener was removed |
| Navigation.OnlyLastBuildDispatches | src/components/PortfolioNavigation.ts:53-90 | when every connect after the first followed a disconnect, only the items of the last build dispatch, and each dispatches the project it shows |
| DetailView.Selected | src/components/PortfolioPiece.ts:126-147 | no project gives the cleared state; a project sets the heading text to its title (the heading element is never attached, so the title is not shown) and shows the content with the README tab; hideMenu keeps nav hidden, link `#` and no demo; otherwise nav shows, the link is the gallery-tree form and the demo is one frame (external) or one inline embedder |
| DetailView.ReflectsFacts | src/components/PortfolioPiece.ts:134-165 | in every state consistent with a selection there is at most one demo, a demo implies visible nav, hidden nav implies link `#`, and the content is hidden exactly when nothing is selected |
| DetailView.TabsPreserveReflects | src/components/PortfolioPiece.ts:191-199 | both tab handlers keep the view consistent with the selection and leave the demo children alone |
| DetailView.SelectionShowsReadme | src/components/PortfolioPiece.ts:146-158 | a fresh selection is consistent and already on the README tab, whatever the tab was before |
| DetailView.RepoLinkIgnoresExternal | src/components/PortfolioPiece.ts:136 | an external project with its menu shown links to the gallery tree, never to its own repository |
| DetailView.FetchReadme | src/components/PortfolioPiece.ts:167-189 | ok response gives the body; HTTP failure gives `HTTP error, status = N`; thrown `Error` gives its message; other throws give `Unknown error - See console for details`; no project gives `No project selected` |
| DetailView.ReadmeRequest | src/components/PortfolioPiece.ts:170 | the README request honours the external flag: an `https://` address exactly for external projects |
| DetailView.DemoAndReadmeErrorTexts | src/components/PortfolioPiece.ts:181-185 | the demo's error text is the README's wrapped in `<p>`, except for a non-`Error` throw, where the two texts differ beyond the wrapping |
| DetailView.PortfolioPiece.constructor | src/components/PortfolioPiece.ts:18-114 | builds a new markdown holder on the given converter and runs the build for the given (possibly absent) project |
| DetailView.PortfolioPiece.Reset | src/components/PortfolioPiece.ts:154-165 | the state afterwards is the constant cleared state (empty heading, nav and content hidden, README shown, demo hidden, link `#`, no demo children), so reset is idempotent |
| DetailView.PortfolioPiece.BuildProject | src/components/PortfolioPiece.ts:126-152 | the state is `Selected(project)` whatever it was; with a project its README is fetched (hideMenu too) and its text handed to the markdown holder; without one nothing is fetched and the README is untouched |
| DetailView.PortfolioPiece.SetProject | src/components/PortfolioPiece.ts:201-204 | replaces the selection and rebuilds, so selecting the same project twice leaves the same visible state as once |
| DetailView.PortfolioPiece.OnReadmeClick | src/components/PortfolioPiece.ts:191-194 | shows the README region and hides the demo; nothing else changes |
| DetailView.PortfolioPiece.OnDemoClick | src/components/PortfolioPiece.ts:196-199 | hides the README region and shows the demo; nothing else changes |

## Left out

- The asynchronous interleaving of fetches: each operation that awaits a fetch takes its outcome as a parameter and completes at once. A README or demo fetch that resolves after a newer selection, and the moment during the await when the inline demo container is already empty, are not modelled.
- `src/app.ts` (live-reload event source, element lookup, event wiring, auto-selection of the first registry entry) is composition and I/O; its `isProject` gate is the `Types` model.
- `src/app.js` is a compiled bundle of the same sources; only its registry (lines 422-437) is modelled, as `Types.Registry`.
- The markdown conversion library: `makeHtml` is any total function from string to string.
- Browser plumbing: styles, shadow root attachment, `customElements.define`, listener registration and removal for the detail view's tabs (its `connectedCallback`/`disconnectedCallback`; the menu's listeners are modelled), console logging, link targets, button types.
- Attribute values are strings: the `null` an attribute callback receives when an attribute is first added or removed is not modelled.
- Numbers are integers: NaN, infinities, `-0` and the rounding of very large `parseInt` results (which could never name an existing menu index) are not modelled; `Truthy` treats numbers as integers.
- Array values carry their slots (`length` is the number of slots, a hole is `None`) and their named properties. `key in array` for an index key or `length`, and inherited properties, are not modelled; the validator only tests the keys `title`, `projectName` and `external`, which an array holds only as named properties.
- The rendered markup is a single opaque node per `innerHTML` assignment; HTML parsing is not modelled.
