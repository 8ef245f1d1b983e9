/** The left navigation of the collapsible nav with groups enabled
    (collapsible_nav_group_enabled.tsx): which nav group is in effect,
    whether the manage (system) links are appended, and the assembly of the
    ordered link list handed to the final fulfilment step.

    The observables are read as their current values. The nav-group map is
    an ordered list of (id, group) pairs, in the order `Object.values` yields
    them. `fulfillRegistrationLinksToChromeNavLinks` is not part of this
    model and is a function parameter (`Fulfil`). */
module CollapsibleNav {
  import opened Common

  const ALL_USE_CASE_ID: string := "all"
  const MAX_SAFE_INTEGER: int := 9007199254740991
  const SEE_ALL_TITLE: string := "See all..."
  const CUSTOM_CATEGORY_ID: string := "custom"
  const CUSTOM_CATEGORY_LABEL: string := "Custom"

  /** An app category; `order` may be undefined. */
  datatype Category = Category(id: string, labelText: string, order: Option<int>)

  /** A nav link. Absent optional flags read as false. */
  datatype Link = Link(
    id: string,
    title: string,
    hidden: bool,
    category: Option<Category>,
    showInAllNavGroup: bool,
    order: Option<int>)

  /** `NavGroupType`; a group without a type is a use case. */
  datatype NavGroupType = System

  /** A nav group as stored in the nav-group map. */
  datatype NavGroup = NavGroup(
    id: string,
    title: string,
    order: int,
    groupType: Option<NavGroupType>,
    navLinks: seq<Link>)

  /** `Record<string, NavGroupItemInMap>` in iteration order. */
  type NavGroupsMap = seq<(string, NavGroup)>

  /** The fulfilment helper, whose definition is not part of this model: it
      turns registration links into the chrome links to render, given the
      available links. */
  type Fulfil = (seq<Link>, seq<Link>) -> seq<Link>

  /** JavaScript truthiness of an optional id: defined and not empty. */
  predicate Truthy(id: Option<string>)
  {
    id.Some? && id.value != ""
  }

  /** `Object.values(navGroupsMap)`. */
  function Values(m: NavGroupsMap): (r: seq<NavGroup>)
    ensures |r| == |m| && forall k :: 0 <= k < |m| ==> r[k] == m[k].1
  {
    seq(|m|, k requires 0 <= k < |m| => m[k].1)
  }

  /** `navGroupsMap[key]`, `undefined` when the key is absent. */
  function Lookup(m: NavGroupsMap, key: string): (r: Option<NavGroup>)
    ensures r.None? <==> forall k :: 0 <= k < |m| ==> m[k].0 != key
    ensures r.Some? ==> exists k :: 0 <= k < |m| && m[k] == (key, r.value)
  {
    match FindFirst(m, (p: (string, NavGroup)) => p.0 == key)
    case None => None
    case Some(p) => Some(p.1)
  }

  /** A map as the nav-group service builds it: each group is stored under
      its own id, and no id is stored twice. */
  predicate WellFormedMap(m: NavGroupsMap)
  {
    (forall k :: 0 <= k < |m| ==> m[k].1.id == m[k].0) &&
    (forall i, j :: 0 <= i < j < |m| ==> m[i].0 != m[j].0)
  }

  /** The ids of a list of links, in order. */
  function Ids(links: seq<Link>): seq<string>
  {
    MapSeq(links, (l: Link) => l.id)
  }

  /** The links that are not hidden, in order and with their repetitions:
      the links every later step works from. */
  function VisibleNavLinks(allNavLinks: seq<Link>): (r: seq<Link>)
    ensures forall l :: l in r ==> !l.hidden
    ensures forall l :: l in allNavLinks && !l.hidden ==> l in r
    ensures IsSubsequence(r, allNavLinks)
    ensures forall l :: multiset(r)[l] == if l.hidden then 0 else multiset(allNavLinks)[l]
  {
    Filter(allNavLinks, (l: Link) => !l.hidden)
  }

  /** `customCategory`: it always sits after the manage category. */
  function CustomCategoryFor(manage: Category): (c: Category)
    ensures c.id == CUSTOM_CATEGORY_ID && c.order.Some?
    ensures manage.order.None? ==> c.order == Some(500)
    ensures manage.order.Some? ==> c.order == Some(manage.order.value + 500)
    ensures manage.order.Some? ==> c.order.value > manage.order.value
  {
    // `order || 0`: an undefined order and an order of 0 both give 0
    var base := if manage.order.Some? && manage.order.value != 0 then manage.order.value else 0;
    Category(CUSTOM_CATEGORY_ID, CUSTOM_CATEGORY_LABEL, Some(base + 500))
  }

  /** `NavWidth`. */
  datatype NavWidth = Expanded | Collapsed
  {
    function Pixels(): int
    {
      match this
      case Expanded => 270
      case Collapsed => 48
    }
  }

  /** The flyout width: collapsed exactly when the nav is closed. */
  function Width(isNavOpen: bool): (r: NavWidth)
    ensures r == Expanded <==> isNavOpen
    ensures r.Pixels() == (if isNavOpen then 270 else 48)
  {
    if !isNavOpen then Collapsed else Expanded
  }

  /** `currentNavGroupId`: the current group's id when there is one;
      otherwise the only visible use case, or the "all" use case when
      workspaces are disabled, or nothing. */
  function CurrentNavGroupId(currentNavGroup: Option<NavGroup>, visibleUseCases: seq<NavGroup>, workspacesEnabled: bool): (r: Option<string>)
    ensures currentNavGroup.Some? ==> r == Some(currentNavGroup.value.id)
    ensures currentNavGroup.None? && |visibleUseCases| == 1 ==> r == Some(visibleUseCases[0].id)
    ensures currentNavGroup.None? && |visibleUseCases| != 1 && !workspacesEnabled ==> r == Some(ALL_USE_CASE_ID)
    ensures currentNavGroup.None? && |visibleUseCases| != 1 && workspacesEnabled ==> r.None?
  {
    if currentNavGroup.None? && |visibleUseCases| == 1 then Some(visibleUseCases[0].id)
    else if currentNavGroup.None? && !workspacesEnabled then Some(ALL_USE_CASE_ID)
    else if currentNavGroup.Some? then Some(currentNavGroup.value.id)
    else None
  }

  /** `shouldAppendManageCategory`. */
  function ShouldAppendManageCategory(workspacesEnabled: bool, currentNavGroupId: Option<string>): (r: bool)
    ensures workspacesEnabled ==> (r <==> !Truthy(currentNavGroupId))
    ensures !workspacesEnabled ==> (r <==> currentNavGroupId == Some(ALL_USE_CASE_ID))
  {
    if workspacesEnabled then !Truthy(currentNavGroupId) else currentNavGroupId == Some(ALL_USE_CASE_ID)
  }

  /** `homeLink`: the first link, hidden or not, whose id is "home". */
  function HomeLink(allNavLinks: seq<Link>): (r: Option<Link>)
    ensures r.Some? ==> r.value in allNavLinks && r.value.id == "home"
    ensures r.None? <==> forall k :: 0 <= k < |allNavLinks| ==> allNavLinks[k].id != "home"
    ensures r.Some? ==> exists k :: 0 <= k < |allNavLinks| && allNavLinks[k] == r.value &&
                          forall j :: 0 <= j < k ==> allNavLinks[j].id != "home"
  {
    FindFirst(allNavLinks, (l: Link) => l.id == "home")
  }

  /** `firstVisibleNavLinkOfAllUseCase`: the first fulfilled link of the
      "all" group, nothing when the group is absent or fulfils to nothing. */
  function FirstVisibleNavLinkOfAllUseCase(m: NavGroupsMap, navLinks: seq<Link>, fulfil: Fulfil): (r: Option<Link>)
    ensures r.None? <==> fulfil(GroupLinksOf(m, ALL_USE_CASE_ID), navLinks) == []
    ensures r.Some? ==> r.value == fulfil(GroupLinksOf(m, ALL_USE_CASE_ID), navLinks)[0]
    ensures Lookup(m, ALL_USE_CASE_ID).None? ==> (r.None? <==> fulfil([], navLinks) == [])
  {
    var fulfilled := fulfil(GroupLinksOf(m, ALL_USE_CASE_ID), navLinks);
    if |fulfilled| > 0 then Some(fulfilled[0]) else None
  }

  /** `shouldShowCollapsedNavHeaderContent`: the header content is rendered
      only in an open nav that has a header renderer and no effective group. */
  function ShouldShowCollapsedNavHeaderContent(isNavOpen: bool, hasHeaderRender: bool, currentNavGroupId: Option<string>): (r: bool)
    ensures r <==> isNavOpen && hasHeaderRender && !Truthy(currentNavGroupId)
    ensures r && hasHeaderRender ==> currentNavGroupId.None? || currentNavGroupId == Some("")
  {
    isNavOpen && hasHeaderRender && !Truthy(currentNavGroupId)
  }

  /** The group handed to the top of the nav: the map's entry for a truthy
      effective id, `undefined` otherwise. */
  function TopCurrentNavGroup(m: NavGroupsMap, currentNavGroupId: Option<string>): (r: Option<NavGroup>)
    ensures !Truthy(currentNavGroupId) ==> r.None?
    ensures r.Some? ==> Truthy(currentNavGroupId) && exists k :: 0 <= k < |m| && m[k] == (currentNavGroupId.value, r.value)
    ensures Truthy(currentNavGroupId) && (exists k :: 0 <= k < |m| && m[k].0 == currentNavGroupId.value) ==> r.Some?
  {
    if Truthy(currentNavGroupId) then Lookup(m, currentNavGroupId.value) else None
  }

  // ---------------------------------------------------------------------
  // Ordering of nav groups (`sort(sortBy('order'))`, ascending)

  predicate SortedByOrder(groups: seq<NavGroup>)
  {
    forall i, j :: 0 <= i < j < |groups| ==> groups[i].order <= groups[j].order
  }

  /** Inserts `g` before the first group whose order is not smaller. */
  function InsertByOrder(g: NavGroup, groups: seq<NavGroup>): (r: seq<NavGroup>)
    ensures |r| == |groups| + 1
    ensures multiset(r) == multiset{g} + multiset(groups)
    ensures forall x :: x in r ==> x == g || x in groups
  {
    if groups == [] then [g]
    else if g.order <= groups[0].order then [g] + groups
    else
      assert groups == [groups[0]] + groups[1..];
      [groups[0]] + InsertByOrder(g, groups[1..])
  }

  /** The groups in ascending order of `order` (insertion sort). */
  function SortByOrder(groups: seq<NavGroup>): (r: seq<NavGroup>)
    ensures multiset(r) == multiset(groups)
  {
    if groups == [] then []
    else
      assert groups == [groups[0]] + groups[1..];
      InsertByOrder(groups[0], SortByOrder(groups[1..]))
  }

  // ---------------------------------------------------------------------
  // getSystemNavGroups

  /** The system groups of the map, in ascending order. */
  function SystemGroups(m: NavGroupsMap): seq<NavGroup>
  {
    Filter(SortByOrder(Values(m)), (g: NavGroup) => g.groupType == Some(System))
  }

  /** What one system group contributes: its first fulfilled link, titled
      with the group's title and placed in the manage category. */
  function SystemLink(g: NavGroup, navLinks: seq<Link>, fulfil: Fulfil, manage: Category): (r: seq<Link>)
    ensures |r| <= 1
    ensures r != [] <==> fulfil(g.navLinks, navLinks) != []
    ensures r != [] ==> r[0].id == fulfil(g.navLinks, navLinks)[0].id && r[0].title == g.title && r[0].category == Some(manage)
  {
    var fulfilled := fulfil(g.navLinks, navLinks);
    if |fulfilled| > 0 then [fulfilled[0].(title := g.title, category := Some(manage))] else []
  }

  /** The contributions of `groups`, in order. */
  function SystemLinksOf(groups: seq<NavGroup>, navLinks: seq<Link>, fulfil: Fulfil, manage: Category): seq<Link>
  {
    if groups == [] then []
    else SystemLinksOf(groups[..|groups| - 1], navLinks, fulfil, manage) +
         SystemLink(groups[|groups| - 1], navLinks, fulfil, manage)
  }

  // ---------------------------------------------------------------------
  // The "all" use case

  /** Some group of `groups` registers a link with this id. */
  predicate RegisteredIn(groups: seq<NavGroup>, id: string)
  {
    exists i, j :: 0 <= i < |groups| && 0 <= j < |groups[i].navLinks| && groups[i].navLinks[j].id == id
  }

  /** `linkIdsWithUseGroupInfo`: every registered link id, group by group. */
  function RegisteredIds(groups: seq<NavGroup>): (r: seq<string>)
    ensures forall id :: id in r <==> RegisteredIn(groups, id)
  {
    if groups == [] then []
    else
      var prefix := groups[..|groups| - 1];
      var last := groups[|groups| - 1];
      var r := RegisteredIds(prefix) + Ids(last.navLinks);
      assert forall id :: RegisteredIn(groups, id) <==> RegisteredIn(prefix, id) || id in Ids(last.navLinks) by {
        forall id ensures RegisteredIn(groups, id) <==> RegisteredIn(prefix, id) || id in Ids(last.navLinks) {
          if RegisteredIn(groups, id) {
            var i, j :| 0 <= i < |groups| && 0 <= j < |groups[i].navLinks| && groups[i].navLinks[j].id == id;
            if i < |prefix| {
              assert prefix[i] == groups[i];
            } else {
              assert Ids(last.navLinks)[j] == id;
            }
          }
          if RegisteredIn(prefix, id) {
            var i, j :| 0 <= i < |prefix| && 0 <= j < |prefix[i].navLinks| && prefix[i].navLinks[j].id == id;
            assert groups[i] == prefix[i];
          }
          if id in Ids(last.navLinks) {
            var j :| 0 <= j < |last.navLinks| && Ids(last.navLinks)[j] == id;
            assert groups[|groups| - 1].navLinks[j].id == id;
          }
        }
      }
      r
  }

  /** The links, each moved to category `c`. */
  function Recategorised(links: seq<Link>, c: Category): (r: seq<Link>)
    ensures |r| == |links|
    ensures forall k :: 0 <= k < |links| ==> r[k] == links[k].(category := Some(c))
  {
    seq(|links|, k requires 0 <= k < |links| => links[k].(category := Some(c)))
  }

  /** The visible links no group registers, in the custom category. */
  function UnregisteredLinks(navLinks: seq<Link>, m: NavGroupsMap, custom: Category): seq<Link>
  {
    var registered := RegisteredIds(Values(m));
    Recategorised(Filter(navLinks, (l: Link) => l.id !in registered), custom)
  }

  /** The registered links of the group stored under `id`, none when no
      group is stored there. */
  function GroupLinksOf(m: NavGroupsMap, id: string): seq<Link>
  {
    match Lookup(m, id)
    case None => []
    case Some(g) => g.navLinks
  }

  /** `categoryInfo` of a use-case group. */
  function GroupCategory(g: NavGroup): Category
  {
    Category(g.id, g.title, Some(g.order))
  }

  /** The "See all..." entry of a group section. */
  function SeeAllEntry(id: string, c: Category): Link
  {
    Link(id, SEE_ALL_TITLE, false, Some(c), false, Some(MAX_SAFE_INTEGER))
  }

  /** The fulfilled links of a use-case group that are shown in "all". */
  function ShownInAll(g: NavGroup, navLinks: seq<Link>, fulfil: Fulfil): seq<Link>
  {
    Filter(fulfil(g.navLinks, navLinks), (l: Link) => l.showInAllNavGroup)
  }

  /** What one use-case group appends after the links `acc` already
      collected: its "show in all" links in the group's category and a
      "See all..." entry; or, when it has none, those of its fulfilled links
      whose id `acc` lacks, in the custom category. */
  function UseCaseSection(g: NavGroup, acc: seq<Link>, navLinks: seq<Link>, fulfil: Fulfil, custom: Category): seq<Link>
  {
    var fulfilled := fulfil(g.navLinks, navLinks);
    var shown := Recategorised(ShownInAll(g, navLinks, fulfil), GroupCategory(g));
    if |shown| > 0 then shown + [SeeAllEntry(fulfilled[0].id, GroupCategory(g))]
    else
      var existing := Ids(acc);
      Recategorised(Filter(fulfilled, (l: Link) => l.id !in existing), custom)
  }

  /** The list after the sections of `groups`, in order, were appended to
      `start`. */
  function UseCaseSections(groups: seq<NavGroup>, start: seq<Link>, navLinks: seq<Link>, fulfil: Fulfil, custom: Category): seq<Link>
  {
    if groups == [] then start
    else
      var acc := UseCaseSections(groups[..|groups| - 1], start, navLinks, fulfil, custom);
      acc + UseCaseSection(groups[|groups| - 1], acc, navLinks, fulfil, custom)
  }

  /** The groups without a type, in map order. */
  function UseCaseGroups(m: NavGroupsMap): seq<NavGroup>
  {
    Filter(Values(m), (g: NavGroup) => g.groupType.None?)
  }

  /** The list built for the "all" use case before the system links. */
  function AllModeLinks(m: NavGroupsMap, navLinks: seq<Link>, fulfil: Fulfil, custom: Category): seq<Link>
  {
    UseCaseSections(UseCaseGroups(m), UnregisteredLinks(navLinks, m, custom) + GroupLinksOf(m, ALL_USE_CASE_ID), navLinks, fulfil, custom)
  }

  /** The source indexes the map with a truthy group id other than "all"
      without a guard: such an id must be present. */
  predicate SelectableGroup(m: NavGroupsMap, currentNavGroupId: Option<string>)
  {
    Truthy(currentNavGroupId) && currentNavGroupId.value != ALL_USE_CASE_ID ==> Lookup(m, currentNavGroupId.value).Some?
  }

  /** The links of a specific group other than "all", none otherwise. */
  function SpecificLinks(currentNavGroupId: Option<string>, m: NavGroupsMap): seq<Link>
    requires SelectableGroup(m, currentNavGroupId)
  {
    if Truthy(currentNavGroupId) && currentNavGroupId.value != ALL_USE_CASE_ID
    then Lookup(m, currentNavGroupId.value).value.navLinks else []
  }

  /** The "all"-mode list for the "all" use case, none otherwise. */
  function AllUseCaseLinks(currentNavGroupId: Option<string>, m: NavGroupsMap, navLinks: seq<Link>, fulfil: Fulfil, manage: Category): seq<Link>
  {
    if currentNavGroupId == Some(ALL_USE_CASE_ID)
    then AllModeLinks(m, navLinks, fulfil, CustomCategoryFor(manage)) else []
  }

  /** The system links when they are appended, none otherwise. */
  function ManageLinks(m: NavGroupsMap, navLinks: seq<Link>, appendManage: bool, fulfil: Fulfil, manage: Category): seq<Link>
  {
    if appendManage then SystemLinksOf(SystemGroups(m), navLinks, fulfil, manage) else []
  }

  /** `navLinksResult` just before the final fulfilment. */
  function PreFulfilment(currentNavGroupId: Option<string>, m: NavGroupsMap, navLinks: seq<Link>, appendManage: bool, fulfil: Fulfil, manage: Category): seq<Link>
    requires SelectableGroup(m, currentNavGroupId)
  {
    SpecificLinks(currentNavGroupId, m) +
    AllUseCaseLinks(currentNavGroupId, m, navLinks, fulfil, manage) +
    ManageLinks(m, navLinks, appendManage, fulfil, manage)
  }

  // ---------------------------------------------------------------------
  // The imperative assembly

  /** Pushes each link onto the list being built, in order. */
  method PushEach(result: seq<Link>, links: seq<Link>) returns (r: seq<Link>)
    ensures r == result + links
  {
    r := result;
    var i := 0;
    while i < |links|
      invariant 0 <= i <= |links|
      invariant r == result + links[..i]
    {
      r := r + [links[i]];
      i := i + 1;
    }
    assert links[..i] == links;
  }

  /** Pushes each link onto the list being built, in order, with its
      category replaced by `c`. */
  method PushRecategorised(result: seq<Link>, links: seq<Link>, c: Category) returns (r: seq<Link>)
    ensures r == result + Recategorised(links, c)
  {
    r := result;
    var i := 0;
    while i < |links|
      invariant 0 <= i <= |links|
      invariant r == result + Recategorised(links[..i], c)
    {
      assert Recategorised(links[..i + 1], c) == Recategorised(links[..i], c) + [links[i].(category := Some(c))];
      r := r + [links[i].(category := Some(c))];
      i := i + 1;
    }
    assert links[..i] == links;
  }

  /** `getSystemNavGroups()`: the system groups, sorted, each pushed as its
      first fulfilled link. */
  method GetSystemNavGroups(m: NavGroupsMap, navLinks: seq<Link>, fulfil: Fulfil, manage: Category) returns (result: seq<Link>)
    ensures result == SystemLinksOf(SystemGroups(m), navLinks, fulfil, manage)
  {
    result := PushSystemLinks(SystemGroups(m), navLinks, fulfil, manage);
  }

  /** The `forEach` of `getSystemNavGroups` over the given groups. */
  method PushSystemLinks(groups: seq<NavGroup>, navLinks: seq<Link>, fulfil: Fulfil, manage: Category) returns (result: seq<Link>)
    ensures result == SystemLinksOf(groups, navLinks, fulfil, manage)
  {
    result := [];
    var i := 0;
    while i < |groups|
      invariant 0 <= i <= |groups|
      invariant result == SystemLinksOf(groups[..i], navLinks, fulfil, manage)
    {
      var navGroup := groups[i];
      var visibleNavLinksWithinNavGroup := fulfil(navGroup.navLinks, navLinks);
      if |visibleNavLinksWithinNavGroup| > 0 {
        result := result + [visibleNavLinksWithinNavGroup[0].(title := navGroup.title, category := Some(manage))];
      }
      assert groups[..i + 1][..i] == groups[..i];
      i := i + 1;
    }
    assert groups[..i] == groups;
  }

  /** The body of the loop over use-case groups: appends one group's
      section to the list built so far. */
  method PushUseCaseSection(acc: seq<Link>, group: NavGroup, navLinks: seq<Link>, fulfil: Fulfil, custom: Category)
    returns (navLinksResult: seq<Link>)
    ensures navLinksResult == acc + UseCaseSection(group, acc, navLinks, fulfil, custom)
  {
    var categoryInfo := GroupCategory(group);
    var fulfilledLinksOfNavGroup := fulfil(group.navLinks, navLinks);
    var linksForAllUseCaseWithinNavGroup :=
      Recategorised(Filter(fulfilledLinksOfNavGroup, (l: Link) => l.showInAllNavGroup), categoryInfo);
    navLinksResult := acc + linksForAllUseCaseWithinNavGroup;
    if |linksForAllUseCaseWithinNavGroup| > 0 {
      navLinksResult := navLinksResult + [SeeAllEntry(fulfilledLinksOfNavGroup[0].id, categoryInfo)];
    } else {
      assert navLinksResult == acc;
      var existing := Ids(navLinksResult);
      var notYetListed := Filter(fulfil(group.navLinks, navLinks), (l: Link) => l.id !in existing);
      navLinksResult := PushRecategorised(navLinksResult, notYetListed, custom);
    }
  }

  /** The use-case section loop of the "all" branch: the sections of the
      groups, in order, appended to `start`. */
  method PushUseCaseSections(start: seq<Link>, groups: seq<NavGroup>, navLinks: seq<Link>, fulfil: Fulfil, custom: Category)
    returns (navLinksResult: seq<Link>)
    ensures navLinksResult == UseCaseSections(groups, start, navLinks, fulfil, custom)
  {
    navLinksResult := start;
    var i := 0;
    while i < |groups|
      invariant 0 <= i <= |groups|
      invariant navLinksResult == UseCaseSections(groups[..i], start, navLinks, fulfil, custom)
    {
      navLinksResult := PushUseCaseSection(navLinksResult, groups[i], navLinks, fulfil, custom);
      assert groups[..i + 1][..i] == groups[..i];
      i := i + 1;
    }
    assert groups[..i] == groups;
  }

  /** The "all" branch: unregistered links, the links of the "all" group,
      then the use-case sections. */
  method PushAllModeLinks(m: NavGroupsMap, navLinks: seq<Link>, fulfil: Fulfil, custom: Category)
    returns (navLinksResult: seq<Link>)
    ensures navLinksResult == AllModeLinks(m, navLinks, fulfil, custom)
  {
    var linkIdsWithUseGroupInfo := RegisteredIds(Values(m));
    var unregistered := Filter(navLinks, (l: Link) => l.id !in linkIdsWithUseGroupInfo);
    navLinksResult := PushRecategorised([], unregistered, custom);
    assert navLinksResult == UnregisteredLinks(navLinks, m, custom);
    var allLinks := GroupLinksOf(m, ALL_USE_CASE_ID);
    navLinksResult := PushEach(navLinksResult, allLinks);
    navLinksResult := PushUseCaseSections(navLinksResult, UseCaseGroups(m), navLinks, fulfil, custom);
  }

  /** `navLinksForRender`. */
  method NavLinksForRender(navLinks: seq<Link>, m: NavGroupsMap, currentNavGroupId: Option<string>, appendManage: bool, fulfil: Fulfil, manage: Category)
    returns (r: seq<Link>)
    requires SelectableGroup(m, currentNavGroupId)
    ensures r == fulfil(PreFulfilment(currentNavGroupId, m, navLinks, appendManage, fulfil, manage), navLinks)
  {
    ghost var specific := SpecificLinks(currentNavGroupId, m);
    ghost var all := AllUseCaseLinks(currentNavGroupId, m, navLinks, fulfil, manage);
    ghost var system := ManageLinks(m, navLinks, appendManage, fulfil, manage);
    var navLinksResult: seq<Link> := [];
    if Truthy(currentNavGroupId) && currentNavGroupId.value != ALL_USE_CASE_ID {
      navLinksResult := navLinksResult + Lookup(m, currentNavGroupId.value).value.navLinks;
    }
    assert navLinksResult == specific;
    if currentNavGroupId == Some(ALL_USE_CASE_ID) {
      var allModeLinks := PushAllModeLinks(m, navLinks, fulfil, CustomCategoryFor(manage));
      navLinksResult := navLinksResult + allModeLinks;
    } else {
      assert specific + all == specific;
    }
    assert navLinksResult == specific + all;
    if appendManage {
      var systemLinks := GetSystemNavGroups(m, navLinks, fulfil, manage);
      navLinksResult := navLinksResult + systemLinks;
    }
    assert navLinksResult == specific + all + system;
    r := fulfil(navLinksResult, navLinks);
  }

  // ---------------------------------------------------------------------
  // onGroupClick and the "See all..." dispatch

  /** What a click on a group does: it becomes the current group, and the
      browser goes to its first fulfilled link when there is one. */
  datatype GroupClick = GroupClick(setCurrentNavGroup: string, navigateTo: Option<Link>)

  /** `onGroupClick(e, group)`. A group missing from the map is looked up as
      an empty link list. */
  function OnGroupClick(group: NavGroup, m: NavGroupsMap, navLinks: seq<Link>, fulfil: Fulfil): (r: GroupClick)
    ensures r.setCurrentNavGroup == group.id
    ensures r.navigateTo.Some? <==> fulfil(GroupLinksOf(m, group.id), navLinks) != []
    ensures r.navigateTo.Some? ==> r.navigateTo.value == fulfil(GroupLinksOf(m, group.id), navLinks)[0]
  {
    var fulfilledLinks := fulfil(GroupLinksOf(m, group.id), navLinks);
    GroupClick(group.id, if |fulfilledLinks| > 0 then Some(fulfilledLinks[0]) else None)
  }

  /** The outcome of a click on a rendered nav item. */
  datatype ItemClick =
    | OrdinaryLink            // handled by the link itself
    | GroupSelected(click: GroupClick)
    | MissingGroup            // `navGroupsMap[id]` is undefined: `group.id` throws

  /** `onNavItemClick`: a "See all..." item whose category has a truthy id
      dispatches to the group of that id. */
  function OnNavItemClick(item: Link, m: NavGroupsMap, navLinks: seq<Link>, fulfil: Fulfil): (r: ItemClick)
    ensures r.OrdinaryLink? <==> !(item.title == SEE_ALL_TITLE && item.category.Some? && item.category.value.id != "")
    ensures r.MissingGroup? ==> Lookup(m, item.category.value.id).None?
    ensures r.GroupSelected? ==> Lookup(m, item.category.value.id).Some? &&
                                 r.click.setCurrentNavGroup == Lookup(m, item.category.value.id).value.id
  {
    if item.title == SEE_ALL_TITLE && item.category.Some? && item.category.value.id != "" then
      match Lookup(m, item.category.value.id)
      case None => MissingGroup
      case Some(group) => GroupSelected(OnGroupClick(group, m, navLinks, fulfil))
    else OrdinaryLink
  }
}
