/** The navigation menu: one button per project, and the click that selects one. */
module Navigation {
  import opened Wrappers
  import opened Decimal
  import opened Types

  /** A menu button: its `value` attribute and its label (the `innerHTML` of the button). */
  datatype MenuEntry = MenuEntry(value: string, title: string)

  /** The `currentTarget` of a click: a button with its value, or anything else. */
  datatype ClickTarget = Button(value: string) | NotButton

  /** The entries one `#buildMenu` appends: entry i has value `${i}` and the title of project i. */
  function Menu(projects: seq<Project>): seq<MenuEntry> {
    seq(|projects|, i requires 0 <= i < |projects| => MenuEntry(NatToString(i), projects[i].title))
  }

  /** The menu list after k builds, since the list is never cleared: k copies of the menu. */
  function Repeated(m: seq<MenuEntry>, k: nat): seq<MenuEntry> {
    if k == 0 then [] else m + Repeated(m, k - 1)
  }

  lemma {:induction false} RepeatedLength(m: seq<MenuEntry>, k: nat)
    ensures |Repeated(m, k)| == k * |m|
  {
    if k > 0 { RepeatedLength(m, k - 1); }
  }

  /** One more build appends one more copy at the end. */
  lemma {:induction false} RepeatedAppend(m: seq<MenuEntry>, k: nat)
    ensures Repeated(m, k) + m == Repeated(m, k + 1)
  {
    if k > 0 {
      RepeatedAppend(m, k - 1);
    }
  }

  /** Entry c * |m| + i of k copies is entry i of the menu. */
  lemma {:induction false} RepeatedAt(m: seq<MenuEntry>, k: nat, c: nat, i: nat)
    requires i < |m| && c * |m| + i < |Repeated(m, k)|
    ensures Repeated(m, k)[c * |m| + i] == m[i]
  {
    if c > 0 {
      RepeatedLength(m, k);
      RepeatedLength(m, k - 1);
      assert c * |m| + i - |m| == (c - 1) * |m| + i;
      RepeatedAt(m, k - 1, c - 1, i);
    }
  }

  /**
   * Every entry of the list after any number of builds decodes to the index of
   * the project it is labelled with: entry c * |projects| + i carries `${i}`
   * and the title of project i.
   */
  lemma BuiltEntryRoundTrip(projects: seq<Project>, k: nat, c: nat, i: nat)
    requires i < |projects| && c * |projects| + i < |Repeated(Menu(projects), k)|
    ensures ParseInt(Repeated(Menu(projects), k)[c * |projects| + i].value) == Some(i)
    ensures Repeated(Menu(projects), k)[c * |projects| + i].title == projects[i].title
  {
    RepeatedAt(Menu(projects), k, c, i);
    ParseIntOfNatToString(i);
  }

  /** A list item: its button's entry, and whether the button's click listener is attached. */
  datatype MenuItem = MenuItem(entry: MenuEntry, listening: bool)

  /** The entries the items show, with the listener state dropped. */
  function Entries(items: seq<MenuItem>): (entries: seq<MenuEntry>)
    ensures |entries| == |items|
    ensures forall j :: 0 <= j < |items| ==> entries[j] == items[j].entry
  {
    seq(|items|, j requires 0 <= j < |items| => items[j].entry)
  }

  /** The items one `#buildMenu` appends: every button gets the click listener. */
  function Attached(m: seq<MenuEntry>): (items: seq<MenuItem>)
    ensures Entries(items) == m
    ensures forall j :: 0 <= j < |items| ==> items[j].listening
  {
    seq(|m|, j requires 0 <= j < |m| => MenuItem(m[j], true))
  }

  class PortfolioNavigation {
    const projects: seq<Project>
    /** The items of the menu list, in order. */
    var list: seq<MenuItem>
    /** How many times the menu has been built, one build per connect. */
    ghost var connects: nat
    /** How many items the list held at the last disconnect: their listeners are removed. */
    ghost var silenced: nat

    /**
     * The list holds one copy of the menu per connect, and exactly the
     * items appended since the last disconnect still listen for clicks.
     */
    ghost predicate Valid()
      reads this
    {
      && silenced <= |list|
      && Entries(list) == Repeated(Menu(projects), connects)
      && forall j :: 0 <= j < |list| ==> (list[j].listening <==> silenced <= j)
    }

    /** `projects ?? []`: constructing without projects gives an empty project list. */
    constructor (projects: Option<seq<Project>>)
      ensures this.projects == if projects.Some? then projects.value else []
      ensures list == [] && connects == 0 && silenced == 0
      ensures Valid()
    {
      this.projects := if projects.Some? then projects.value else [];
      list := [];
      connects := 0;
      silenced := 0;
    }

    /** `connectedCallback`: builds the menu again, after whatever earlier connects left. */
    method ConnectedCallback()
      requires Valid()
      modifies this
      ensures connects == old(connects) + 1 && silenced == old(silenced)
      ensures list == old(list) + Attached(Menu(projects))
      ensures Valid()
    {
      BuildMenu();
      RepeatedAppend(Menu(projects), connects);
      assert Entries(list) == Entries(old(list)) + Menu(projects);
      connects := connects + 1;
    }

    /** `#buildMenu`: appends one listening button per project, in order, to the list. */
    method BuildMenu()
      modifies this
      ensures list == old(list) + Attached(Menu(projects))
      ensures connects == old(connects) && silenced == old(silenced)
    {
      for i := 0 to |projects|
        invariant list == old(list) + Attached(Menu(projects))[..i]
        invariant connects == old(connects) && silenced == old(silenced)
      {
        list := list + [MenuItem(MenuEntry(NatToString(i), projects[i].title), true)];
      }
    }

    /**
     * `disconnectedCallback`: removes the click listener from the button of
     * every item in the list; the items themselves stay.
     */
    method DisconnectedCallback()
      requires Valid()
      modifies this
      ensures Entries(list) == Entries(old(list))
      ensures forall j :: 0 <= j < |list| ==> !list[j].listening
      ensures connects == old(connects) && silenced == |list|
      ensures Valid()
    {
      for j := 0 to |list|
        invariant |list| == |old(list)|
        invariant forall k :: 0 <= k < |list| ==> list[k].entry == old(list)[k].entry
        invariant forall k :: 0 <= k < j ==> !list[k].listening
        invariant connects == old(connects)
      {
        list := list[j := list[j].(listening := false)];
      }
      silenced := |list|;
    }

    /**
     * `#onProjectClick`: the project a click selects, `None` when no event is
     * dispatched. Only a button whose value parses to the index of an existing
     * project dispatches, and its detail is that project.
     */
    function OnProjectClick(target: ClickTarget): (detail: Option<Project>)
      ensures detail.Some? <==>
        target.Button? && ParseInt(target.value).Some? && 0 <= ParseInt(target.value).value < |projects|
      ensures detail.Some? ==> detail.value == projects[ParseInt(target.value).value]
    {
      if target.Button? then
        match ParseInt(target.value)
        case Some(index) => if 0 <= index < |projects| then Some(projects[index]) else None
        case None => None
      else None
    }

    /** A click on the button of item j: it reaches `#onProjectClick` only through an attached listener. */
    function ClickItem(j: nat): Option<Project>
      requires j < |list|
      reads this
    {
      if list[j].listening then OnProjectClick(Button(list[j].entry.value)) else None
    }
  }

  /** After k connects the list holds k full copies of the menu. */
  lemma ListLength(nav: PortfolioNavigation)
    requires nav.Valid()
    ensures |nav.list| == nav.connects * |nav.projects|
  {
    RepeatedLength(Menu(nav.projects), nav.connects);
  }

  /**
   * Item c * |projects| + i of the list is labelled with project i; a click on
   * it dispatches project i when its listener survived the last disconnect,
   * and nothing otherwise.
   */
  lemma ClickOnEntryDispatches(nav: PortfolioNavigation, c: nat, i: nat)
    requires nav.Valid() && i < |nav.projects| && c * |nav.projects| + i < |nav.list|
    ensures nav.ClickItem(c * |nav.projects| + i) ==
      if nav.silenced <= c * |nav.projects| + i then Some(nav.projects[i]) else None
    ensures nav.list[c * |nav.projects| + i].entry.title == nav.projects[i].title
  {
    assert nav.list[c * |nav.projects| + i].entry == Entries(nav.list)[c * |nav.projects| + i];
    BuiltEntryRoundTrip(nav.projects, nav.connects, c, i);
  }

  /**
   * In the browser's lifecycle every connect after the first follows a
   * disconnect, so the items of earlier builds are silenced: only the copy the
   * last build appended dispatches.
   */
  lemma OnlyLastBuildDispatches(nav: PortfolioNavigation, c: nat, i: nat)
    requires nav.Valid() && nav.connects > 0
    requires nav.silenced == (nav.connects - 1) * |nav.projects|
    requires i < |nav.projects| && c * |nav.projects| + i < |nav.list|
    ensures nav.ClickItem(c * |nav.projects| + i) ==
      if c == nav.connects - 1 then Some(nav.projects[i]) else None
  {
    ClickOnEntryDispatches(nav, c, i);
    ListLength(nav);
    LastBlock(c, nav.connects, |nav.projects|, i);
  }

  /** Position c * n + i (i < n) lies in the last of k blocks of n exactly when c is the last block. */
  lemma LastBlock(c: nat, k: nat, n: nat, i: nat)
    requires 0 < k && i < n && c * n + i < k * n
    ensures (k - 1) * n <= c * n + i <==> c == k - 1
  {
    if c >= k {
      MulMonotone(k, c, n);
    } else if c < k - 1 {
      MulMonotone(c + 1, k - 1, n);
      assert (c + 1) * n == c * n + n;
    }
  }

  lemma MulMonotone(a: nat, b: nat, n: nat)
    requires a <= b
    ensures a * n <= b * n
  {
  }
}
