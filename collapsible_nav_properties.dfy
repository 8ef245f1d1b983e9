/** Properties of the left-navigation assembly in CollapsibleNav: which
    links each set-up contributes, the "See all..." rule, the fallback that
    adds no id twice, and the one-link-per-system-group rule. */
module CollapsibleNavProperties {
  import opened Common
  import opened CollapsibleNav

  /** No two links share an id. */
  predicate DistinctIds(links: seq<Link>)
  {
    forall i, j :: 0 <= i < j < |links| ==> links[i].id != links[j].id
  }

  // ---------------------------------------------------------------------
  // Effective group and manage links

  /** The manage links are appended, in terms of the component's inputs:
      with workspaces enabled exactly when there is no effective group id
      (no current group and not exactly one visible use case, or an empty
      id); with workspaces disabled exactly when the effective id is "all". */
  lemma ManageAppendedExactlyWhen(currentNavGroup: Option<NavGroup>, visibleUseCases: seq<NavGroup>, workspacesEnabled: bool)
    ensures var id := CurrentNavGroupId(currentNavGroup, visibleUseCases, workspacesEnabled);
      ShouldAppendManageCategory(workspacesEnabled, id) <==>
        if workspacesEnabled then
          (currentNavGroup.None? && |visibleUseCases| != 1) ||
          (currentNavGroup.None? && |visibleUseCases| == 1 && visibleUseCases[0].id == "") ||
          (currentNavGroup.Some? && currentNavGroup.value.id == "")
        else
          (currentNavGroup.None? && |visibleUseCases| != 1) ||
          (currentNavGroup.None? && |visibleUseCases| == 1 && visibleUseCases[0].id == ALL_USE_CASE_ID) ||
          (currentNavGroup.Some? && currentNavGroup.value.id == ALL_USE_CASE_ID)
  {
  }

  /** The collapsed-nav header content, in terms of the component's inputs:
      in an open nav with a header renderer, shown with workspaces enabled
      exactly when the manage links are appended, and with workspaces
      disabled only when the effective group id is the empty string. */
  lemma HeaderContentShownExactlyWhen(isNavOpen: bool, hasHeaderRender: bool, currentNavGroup: Option<NavGroup>, visibleUseCases: seq<NavGroup>, workspacesEnabled: bool)
    ensures var id := CurrentNavGroupId(currentNavGroup, visibleUseCases, workspacesEnabled);
      workspacesEnabled ==>
        (ShouldShowCollapsedNavHeaderContent(isNavOpen, hasHeaderRender, id) <==>
         isNavOpen && hasHeaderRender && ShouldAppendManageCategory(workspacesEnabled, id))
    ensures var id := CurrentNavGroupId(currentNavGroup, visibleUseCases, workspacesEnabled);
      !workspacesEnabled ==>
        (ShouldShowCollapsedNavHeaderContent(isNavOpen, hasHeaderRender, id) <==>
         isNavOpen && hasHeaderRender &&
         ((currentNavGroup.None? && |visibleUseCases| == 1 && visibleUseCases[0].id == "") ||
          (currentNavGroup.Some? && currentNavGroup.value.id == "")))
  {
  }

  // ---------------------------------------------------------------------
  // The three set-ups

  /** A specific group other than "all": exactly its registered links,
      followed by the system links when they are appended. */
  lemma SpecificGroupLinks(currentNavGroupId: Option<string>, m: NavGroupsMap, navLinks: seq<Link>, appendManage: bool, fulfil: Fulfil, manage: Category)
    requires SelectableGroup(m, currentNavGroupId)
    requires Truthy(currentNavGroupId) && currentNavGroupId.value != ALL_USE_CASE_ID
    ensures PreFulfilment(currentNavGroupId, m, navLinks, appendManage, fulfil, manage) ==
            Lookup(m, currentNavGroupId.value).value.navLinks +
            (if appendManage then SystemLinksOf(SystemGroups(m), navLinks, fulfil, manage) else [])
  {
    var specific := Lookup(m, currentNavGroupId.value).value.navLinks;
    var system := if appendManage then SystemLinksOf(SystemGroups(m), navLinks, fulfil, manage) else [];
    assert currentNavGroupId != Some(ALL_USE_CASE_ID);
    assert PreFulfilment(currentNavGroupId, m, navLinks, appendManage, fulfil, manage) == specific + [] + system;
    assert specific + [] == specific;
  }

  /** With the manage flag the component computes, a specific group other
      than "all" never gets the system links: its list is exactly its
      registered links. */
  lemma SpecificGroupHasNoManageLinks(currentNavGroupId: Option<string>, m: NavGroupsMap, navLinks: seq<Link>, workspacesEnabled: bool, fulfil: Fulfil, manage: Category)
    requires SelectableGroup(m, currentNavGroupId)
    requires Truthy(currentNavGroupId) && currentNavGroupId.value != ALL_USE_CASE_ID
    ensures !ShouldAppendManageCategory(workspacesEnabled, currentNavGroupId)
    ensures PreFulfilment(currentNavGroupId, m, navLinks, ShouldAppendManageCategory(workspacesEnabled, currentNavGroupId), fulfil, manage) ==
            Lookup(m, currentNavGroupId.value).value.navLinks
  {
    SpecificGroupLinks(currentNavGroupId, m, navLinks, false, fulfil, manage);
    assert Lookup(m, currentNavGroupId.value).value.navLinks + [] == Lookup(m, currentNavGroupId.value).value.navLinks;
  }

  /** The "all" use case: the "all"-mode list followed by the system links,
      when appended. */
  lemma AllModeLinksThenSystemLinks(m: NavGroupsMap, navLinks: seq<Link>, appendManage: bool, fulfil: Fulfil, manage: Category)
    ensures PreFulfilment(Some(ALL_USE_CASE_ID), m, navLinks, appendManage, fulfil, manage) ==
            AllModeLinks(m, navLinks, fulfil, CustomCategoryFor(manage)) +
            (if appendManage then SystemLinksOf(SystemGroups(m), navLinks, fulfil, manage) else [])
  {
    assert [] + AllModeLinks(m, navLinks, fulfil, CustomCategoryFor(manage)) == AllModeLinks(m, navLinks, fulfil, CustomCategoryFor(manage));
  }

  /** No effective group: only the system links, when appended. */
  lemma NoGroupLinks(currentNavGroupId: Option<string>, m: NavGroupsMap, navLinks: seq<Link>, appendManage: bool, fulfil: Fulfil, manage: Category)
    requires !Truthy(currentNavGroupId)
    ensures PreFulfilment(currentNavGroupId, m, navLinks, appendManage, fulfil, manage) ==
            (if appendManage then SystemLinksOf(SystemGroups(m), navLinks, fulfil, manage) else [])
  {
  }

  /** The sections only ever append: the starting list stays a prefix. */
  lemma {:induction false} UseCaseSectionsExtend(groups: seq<NavGroup>, start: seq<Link>, navLinks: seq<Link>, fulfil: Fulfil, custom: Category)
    ensures start <= UseCaseSections(groups, start, navLinks, fulfil, custom)
  {
    if groups != [] {
      UseCaseSectionsExtend(groups[..|groups| - 1], start, navLinks, fulfil, custom);
    }
  }

  /** The links taken in "all" mode for being registered nowhere: each is a
      visible link that no group registers, moved to the custom category, so
      none is hidden. */
  lemma UnregisteredLinksAreCustom(allNavLinks: seq<Link>, m: NavGroupsMap, custom: Category)
    ensures var navLinks := VisibleNavLinks(allNavLinks);
      var opening := UnregisteredLinks(navLinks, m, custom);
      && (forall x :: x in opening ==> x.category == Some(custom) && !x.hidden && !RegisteredIn(Values(m), x.id))
      && (forall x :: x in opening ==> exists l :: l in navLinks && x == l.(category := Some(custom)))
  {
    var navLinks := VisibleNavLinks(allNavLinks);
    var registered := RegisteredIds(Values(m));
    var kept := Filter(navLinks, (l: Link) => l.id !in registered);
    var opening := UnregisteredLinks(navLinks, m, custom);
    assert opening == Recategorised(kept, custom);
    forall x | x in opening
      ensures x.category == Some(custom) && !x.hidden && !RegisteredIn(Values(m), x.id)
      ensures exists l :: l in navLinks && x == l.(category := Some(custom))
    {
      var k :| 0 <= k < |opening| && opening[k] == x;
      assert kept[k] in kept;
    }
  }

  /** Every visible link that no group registers is taken, in the custom
      category. */
  lemma UnregisteredLinksAreAllTaken(navLinks: seq<Link>, m: NavGroupsMap, custom: Category)
    ensures forall l :: l in navLinks && !RegisteredIn(Values(m), l.id) ==>
              l.(category := Some(custom)) in UnregisteredLinks(navLinks, m, custom)
  {
    var registered := RegisteredIds(Values(m));
    var kept := Filter(navLinks, (l: Link) => l.id !in registered);
    var opening := UnregisteredLinks(navLinks, m, custom);
    assert opening == Recategorised(kept, custom);
    forall l | l in navLinks && !RegisteredIn(Values(m), l.id)
      ensures l.(category := Some(custom)) in opening
    {
      assert l in kept;
      var k :| 0 <= k < |kept| && kept[k] == l;
      assert opening[k] == l.(category := Some(custom));
    }
  }

  /** In "all" mode the list opens with those links, followed by the links
      registered to the "all" group. */
  lemma AllModeOpensWithUnregisteredLinks(navLinks: seq<Link>, m: NavGroupsMap, appendManage: bool, fulfil: Fulfil, manage: Category)
    ensures var custom := CustomCategoryFor(manage);
      UnregisteredLinks(navLinks, m, custom) + GroupLinksOf(m, ALL_USE_CASE_ID) <=
      PreFulfilment(Some(ALL_USE_CASE_ID), m, navLinks, appendManage, fulfil, manage)
  {
    var custom := CustomCategoryFor(manage);
    var start := UnregisteredLinks(navLinks, m, custom) + GroupLinksOf(m, ALL_USE_CASE_ID);
    UseCaseSectionsExtend(UseCaseGroups(m), start, navLinks, fulfil, custom);
  }

  // ---------------------------------------------------------------------
  // One use-case group in "all" mode

  /** The links that pass `p`, moved to category `c`: each comes from a
      passing link, and every passing link is among them. */
  lemma RecategorisedFilter(links: seq<Link>, p: Link -> bool, c: Category)
    ensures forall x :: x in Recategorised(Filter(links, p), c) ==>
              x.category == Some(c) && exists l :: l in links && p(l) && x == l.(category := Some(c))
    ensures forall l :: l in links && p(l) ==> l.(category := Some(c)) in Recategorised(Filter(links, p), c)
  {
    var kept := Filter(links, p);
    var moved := Recategorised(kept, c);
    forall x | x in moved
      ensures x.category == Some(c) && exists l :: l in links && p(l) && x == l.(category := Some(c))
    {
      var k :| 0 <= k < |moved| && moved[k] == x;
      assert kept[k] in kept;
    }
    forall l | l in links && p(l)
      ensures l.(category := Some(c)) in moved
    {
      var k :| 0 <= k < |kept| && kept[k] == l;
      assert moved[k] == l.(category := Some(c));
    }
  }

  /** The "See all..." rule, for a group with fulfilled links marked "show
      in all": those links, in the group's own category, followed by exactly
      one "See all..." entry, which carries the first fulfilled link's id and
      the largest safe integer as its order; the entry is the only appended
      item not marked "show in all". */
  lemma SeeAllEntryFollowsShownLinks(g: NavGroup, acc: seq<Link>, navLinks: seq<Link>, fulfil: Fulfil, custom: Category)
    requires exists l :: l in fulfil(g.navLinks, navLinks) && l.showInAllNavGroup
    ensures var section := UseCaseSection(g, acc, navLinks, fulfil, custom);
      var fulfilled := fulfil(g.navLinks, navLinks);
      && |section| >= 2 && fulfilled != []
      && section[|section| - 1] == SeeAllEntry(fulfilled[0].id, GroupCategory(g))
      && section[|section| - 1].order == Some(MAX_SAFE_INTEGER)
      && (forall k :: 0 <= k < |section| ==> (section[k].showInAllNavGroup <==> k < |section| - 1))
      && (forall k :: 0 <= k < |section| - 1 ==>
            section[k].category == Some(GroupCategory(g)) &&
            exists l :: l in fulfilled && l.showInAllNavGroup && section[k] == l.(category := Some(GroupCategory(g))))
      && section[..|section| - 1] == Recategorised(ShownInAll(g, navLinks, fulfil), GroupCategory(g))
  {
    var fulfilled := fulfil(g.navLinks, navLinks);
    var section := UseCaseSection(g, acc, navLinks, fulfil, custom);
    var showing := ShownInAll(g, navLinks, fulfil);
    var shown := Recategorised(showing, GroupCategory(g));
    var l :| l in fulfilled && l.showInAllNavGroup;
    assert l in showing;
    assert section == shown + [SeeAllEntry(fulfilled[0].id, GroupCategory(g))];
    assert section[..|section| - 1] == shown;
    forall k | 0 <= k < |section| - 1
      ensures section[k].category == Some(GroupCategory(g)) && section[k].showInAllNavGroup
      ensures exists l :: l in fulfilled && l.showInAllNavGroup && section[k] == l.(category := Some(GroupCategory(g)))
    {
      assert section[k] == shown[k];
      assert showing[k] in showing;
    }
  }

  /** A group without fulfilled links marked "show in all" gets no "See
      all..." entry: it appends exactly its fulfilled links whose id is not
      listed yet, moved to the custom category. */
  lemma FallbackAddsOnlyUnlistedLinks(g: NavGroup, acc: seq<Link>, navLinks: seq<Link>, fulfil: Fulfil, custom: Category)
    requires forall l :: l in fulfil(g.navLinks, navLinks) ==> !l.showInAllNavGroup
    ensures forall x :: x in UseCaseSection(g, acc, navLinks, fulfil, custom) ==>
              x.category == Some(custom) && x.id !in Ids(acc) &&
              exists l :: l in fulfil(g.navLinks, navLinks) && x == l.(category := Some(custom))
    ensures forall l :: l in fulfil(g.navLinks, navLinks) && l.id !in Ids(acc) ==>
              l.(category := Some(custom)) in UseCaseSection(g, acc, navLinks, fulfil, custom)
  {
    var fulfilled := fulfil(g.navLinks, navLinks);
    var section := UseCaseSection(g, acc, navLinks, fulfil, custom);
    var showing := ShownInAll(g, navLinks, fulfil);
    assert showing == [] by {
      assert forall k :: 0 <= k < |fulfilled| ==> fulfilled[k] in fulfilled;
    }
    var existing := Ids(acc);
    var keep := (l: Link) => l.id !in existing;
    assert section == Recategorised(Filter(fulfilled, keep), custom);
    RecategorisedFilter(fulfilled, keep, custom);
  }

  /** The fallback adds no id that is already listed, so when the list so
      far and the group's fulfilled links have distinct ids, so has the list
      after the fallback. */
  lemma FallbackKeepsIdsDistinct(g: NavGroup, acc: seq<Link>, navLinks: seq<Link>, fulfil: Fulfil, custom: Category)
    requires DistinctIds(acc)
    requires DistinctIds(fulfil(g.navLinks, navLinks))
    requires forall l :: l in fulfil(g.navLinks, navLinks) ==> !l.showInAllNavGroup
    ensures DistinctIds(acc + UseCaseSection(g, acc, navLinks, fulfil, custom))
  {
    var fulfilled := fulfil(g.navLinks, navLinks);
    var existing := Ids(acc);
    var p := (l: Link) => l.id !in existing;
    var kept := Filter(fulfilled, p);
    var showing := ShownInAll(g, navLinks, fulfil);
    assert showing == [] by {
      assert forall k :: 0 <= k < |fulfilled| ==> fulfilled[k] in fulfilled;
    }
    var section := UseCaseSection(g, acc, navLinks, fulfil, custom);
    assert section == Recategorised(kept, custom);
    var rel := (a: Link, b: Link) => a.id != b.id;
    assert Pairwise(fulfilled, rel);
    FilterPairwise(fulfilled, p, rel);
    var all := acc + section;
    forall i, j | 0 <= i < j < |all| ensures all[i].id != all[j].id {
      if j < |acc| {
      } else if i >= |acc| {
        assert all[i] == section[i - |acc|] && all[j] == section[j - |acc|];
        assert rel(kept[i - |acc|], kept[j - |acc|]);
      } else {
        assert all[j] == section[j - |acc|];
        assert kept[j - |acc|] in kept;
        assert Ids(acc)[i] == acc[i].id;
      }
    }
  }

  /** The fallback filters the whole fulfilled list before pushing any of
      it, so two fulfilled links of one group that share an id both pass:
      the hypothesis on the fulfilled list above cannot be dropped. */
  lemma FallbackKeepsDuplicatesWithinOneGroup(g: NavGroup, l: Link, navLinks: seq<Link>, custom: Category)
    requires !l.showInAllNavGroup
    ensures var fulfil := (registered: seq<Link>, visible: seq<Link>) => [l, l];
      UseCaseSection(g, [], navLinks, fulfil, custom) == [l.(category := Some(custom)), l.(category := Some(custom))] &&
      !DistinctIds(UseCaseSection(g, [], navLinks, fulfil, custom))
  {
    var fulfil := (registered: seq<Link>, visible: seq<Link>) => [l, l];
    assert fulfil(g.navLinks, navLinks) == [l, l];
    assert [l, l][1..] == [l] && [l][1..] == [];
    var shownTest := (x: Link) => x.showInAllNavGroup;
    assert Filter([l], shownTest) == [];
    assert ShownInAll(g, navLinks, fulfil) == [];
    var p := (x: Link) => x.id !in Ids([]);
    assert Filter([l], p) == [l];
    assert Filter([l, l], p) == [l, l];
  }

  // ---------------------------------------------------------------------
  // System groups

  /** Every system group contributes at most one link. */
  lemma {:induction false} SystemLinksAtMostOnePerGroup(groups: seq<NavGroup>, navLinks: seq<Link>, fulfil: Fulfil, manage: Category)
    ensures |SystemLinksOf(groups, navLinks, fulfil, manage)| <= |groups|
  {
    if groups != [] {
      SystemLinksAtMostOnePerGroup(groups[..|groups| - 1], navLinks, fulfil, manage);
    }
  }

  /** The first fulfilled link of a group, as a manage entry. */
  function ManageEntry(g: NavGroup, navLinks: seq<Link>, fulfil: Fulfil, manage: Category): Link
    requires fulfil(g.navLinks, navLinks) != []
  {
    fulfil(g.navLinks, navLinks)[0].(title := g.title, category := Some(manage))
  }

  /** The system links are exactly the manage entries of the groups that
      have a fulfilled link. */
  lemma {:induction false} SystemLinksAreManageEntries(groups: seq<NavGroup>, navLinks: seq<Link>, fulfil: Fulfil, manage: Category)
    ensures forall x :: x in SystemLinksOf(groups, navLinks, fulfil, manage) ==>
              exists g :: g in groups && fulfil(g.navLinks, navLinks) != [] && x == ManageEntry(g, navLinks, fulfil, manage)
    ensures forall g :: g in groups && fulfil(g.navLinks, navLinks) != [] ==>
              ManageEntry(g, navLinks, fulfil, manage) in SystemLinksOf(groups, navLinks, fulfil, manage)
  {
    if groups != [] {
      var prefix := groups[..|groups| - 1];
      var last := groups[|groups| - 1];
      SystemLinksAreManageEntries(prefix, navLinks, fulfil, manage);
      assert groups == prefix + [last];
      forall g | g in groups && fulfil(g.navLinks, navLinks) != []
        ensures ManageEntry(g, navLinks, fulfil, manage) in SystemLinksOf(groups, navLinks, fulfil, manage)
      {
        if g != last {
          assert g in prefix;
        }
      }
    }
  }

  /** Inserting into a sorted list keeps it sorted. */
  lemma {:induction false} InsertKeepsSorted(g: NavGroup, groups: seq<NavGroup>)
    requires SortedByOrder(groups)
    ensures SortedByOrder(InsertByOrder(g, groups))
  {
    if groups != [] && g.order > groups[0].order {
      var tail := groups[1..];
      assert SortedByOrder(tail) by {
        forall i, j | 0 <= i < j < |tail| ensures tail[i].order <= tail[j].order {
          assert tail[i] == groups[i + 1] && tail[j] == groups[j + 1];
        }
      }
      InsertKeepsSorted(g, tail);
      var rest := InsertByOrder(g, tail);
      var r := [groups[0]] + rest;
      forall i, j | 0 <= i < j < |r| ensures r[i].order <= r[j].order {
        if i == 0 {
          assert r[j] in rest;
          if r[j] != g {
            var k :| 0 <= k < |tail| && tail[k] == r[j];
            assert groups[k + 1] == r[j];
          }
        } else {
          assert r[i] == rest[i - 1] && r[j] == rest[j - 1];
        }
      }
    }
  }

  /** The sort yields ascending order. */
  lemma {:induction false} SortByOrderSorted(groups: seq<NavGroup>)
    ensures SortedByOrder(SortByOrder(groups))
  {
    if groups != [] {
      SortByOrderSorted(groups[1..]);
      InsertKeepsSorted(groups[0], SortByOrder(groups[1..]));
    }
  }

  /** The system groups are processed in ascending order of `order`. */
  lemma SystemGroupsAscending(m: NavGroupsMap)
    ensures SortedByOrder(SystemGroups(m))
  {
    var sorted := SortByOrder(Values(m));
    SortByOrderSorted(Values(m));
    var rel := (a: NavGroup, b: NavGroup) => a.order <= b.order;
    assert Pairwise(sorted, rel);
    var p := (g: NavGroup) => g.groupType == Some(System);
    FilterPairwise(sorted, p, rel);
    var r := Filter(sorted, p);
    assert forall i, j :: 0 <= i < j < |r| ==> rel(r[i], r[j]);
  }

  /** The system groups are exactly the groups of the map whose type is
      system, each as often as it occurs in the map. */
  lemma SystemGroupsAreTheSystemTyped(m: NavGroupsMap)
    ensures forall g :: g in SystemGroups(m) <==> g in Values(m) && g.groupType == Some(System)
    ensures forall g: NavGroup :: g.groupType == Some(System) ==> multiset(SystemGroups(m))[g] == multiset(Values(m))[g]
  {
    var sorted := SortByOrder(Values(m));
    forall g ensures g in sorted <==> g in Values(m) {
      assert g in sorted <==> multiset(sorted)[g] > 0;
    }
  }

  // ---------------------------------------------------------------------
  // The "See all..." entry, clicked

  /** Clicking the "See all..." entry of a use-case group of a well-formed
      map selects that group and opens its first fulfilled link, if any. */
  lemma SeeAllClickSelectsItsGroup(g: NavGroup, id: string, m: NavGroupsMap, navLinks: seq<Link>, fulfil: Fulfil)
    requires WellFormedMap(m)
    requires g in Values(m)
    requires g.id != ""
    ensures OnNavItemClick(SeeAllEntry(id, GroupCategory(g)), m, navLinks, fulfil) ==
            GroupSelected(GroupClick(g.id, if fulfil(g.navLinks, navLinks) != [] then Some(fulfil(g.navLinks, navLinks)[0]) else None))
  {
    var k :| 0 <= k < |m| && m[k].1 == g;
    var found := Lookup(m, g.id);
    var k' :| 0 <= k' < |m| && m[k'] == (g.id, found.value);
    assert m[k].0 == g.id && m[k'].0 == g.id;
  }
}
