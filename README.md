# Left navigation and workspace menu of OpenSearch Dashboards, in Dafny

This project models three pieces of the OpenSearch Dashboards front end. Each is stated as functions over sequences of records, with a class for the one piece of state.

* **The left navigation with nav groups enabled** (`CollapsibleNav`, with its properties in `CollapsibleNavProperties`).
  * The component first decides which nav group is in effect. It is the current group; failing that, the only visible use case; failing that, the "all" use case when workspaces are disabled.
  * It then decides whether the manage (system) links are appended.
  * Finally it builds the ordered list of links handed to the final fulfilment step. A specific group contributes its registered links. The "all" use case contributes:
    * the visible links no group registers, in the custom category;
    * the links of the "all" group;
    * for every use-case group, its "show in all" links and one "See all..." entry, or, failing those, its links not listed yet, in the custom category.
  * Every system group contributes its first fulfilled link, retitled, in the manage category.
  * The push loops are methods. Each is proved equal to a specification function, and the properties are lemmas about those functions.
  * The click on a "See all..." entry selects its group.
* **The workspace picker** (`WorkspacePicker`).
  * A case-insensitive, untrimmed substring search over workspace names.
  * The resolution of the recent-workspace id list against the workspace list.
  * The choice of sections and of the empty-state prompt.
* **The workspace menu** (`WorkspaceMenu`).
  * A popover with one boolean of state, as the class `Menu`. The select button toggles it; closing, a workspace click, Manage and Create close it. The last navigation requested is a ghost field.
  * The header's name, icon and use-case title fallbacks.

`Workspaces` holds the records and the use-case lookup `getUseCase`, which the picker and the menu define identically. `Common` holds `Option`, a filter and a find-first with their contracts, and subsequence and pairwise predicates. `Text` holds ASCII lowercasing, `includes` and `trim` with its blank test.

Helpers whose definitions are not part of this model are parameters:
* `fulfillRegistrationLinksToChromeNavLinks` is `Fulfil`;
* `getFirstUseCaseOfFeatureConfigs` is `FirstUseCaseOf`;
* `DEFAULT_APP_CATEGORIES.manage` is a `Category`.

The current values of the observables, `getVisibleUseCases(navGroupsMap)`, `recentWorkspaceManager.getRecentWorkspaces()` and the workspace-enabled capability are plain inputs. The nav-group map is a list of (id, group) pairs in the order `Object.values` yields them. A lookup takes the first pair with the key.

## Model

| member | source | states |
|---|---|---|
| CollapsibleNav.VisibleNavLinks | src/core/public/chrome/ui/header/collapsible_nav_group_enabled.tsx:88-89 | no link of the result is hidden, every non-hidden link is kept as often as it occurs, and the order is kept |
| CollapsibleNav.HomeLink | src/core/public/chrome/ui/header/collapsible_nav_group_enabled.tsx:90 | the result is the first link of the full list with id "home", and none exists exactly when no link has that id |
| CollapsibleNav.FirstVisibleNavLinkOfAllUseCase | src/core/public/chrome/ui/header/collapsible_nav_group_enabled.tsx:94-101 | the first fulfilled link of the "all" group; nothing exactly when it fulfils to nothing; an absent group is read as no links |
| CollapsibleNav.CustomCategoryFor | src/core/public/chrome/ui/header/collapsible_nav_group_enabled.tsx:59-65 | the custom category has id "custom" and order manage order (0 when undefined) plus 500, so it is strictly after the manage category |
| CollapsibleNav.Width | src/core/public/chrome/ui/header/collapsible_nav_group_enabled.tsx:239-245 | expanded (270 pixels) exactly when the nav is open, collapsed (48) otherwise |
| CollapsibleNav.CurrentNavGroupId | src/core/public/chrome/ui/header/collapsible_nav_group_enabled.tsx:105-117 | the current group's id if there is one; otherwise the only visible use case's id; otherwise "all" with workspaces disabled, nothing with them enabled |
| CollapsibleNav.ShouldAppendManageCategory | src/core/public/chrome/ui/header/collapsible_nav_group_enabled.tsx:119-121 | with workspaces enabled, exactly when the effective id is not truthy; with them disabled, exactly when it is "all" |
| CollapsibleNavProperties.HeaderContentShownExactlyWhen | src/core/public/chrome/ui/header/collapsible_nav_group_enabled.tsx:105-126 | in an open nav with a header renderer, the header content shows with workspaces enabled exactly when the manage links are appended, and with them disabled exactly when the current group, or failing one the only visible use case, has the empty id |
| CollapsibleNav.TopCurrentNavGroup | src/core/public/chrome/ui/header/collapsible_nav_group_enabled.tsx:303 | nothing for a falsy id; otherwise the map's entry stored under that id, present whenever the id is a key |
| CollapsibleNav.InsertByOrder | src/core/public/chrome/ui/header/collapsible_nav_group_enabled.tsx:132 | one insertion step of the ordering adds exactly the inserted group |
| CollapsibleNav.SortByOrder | src/core/public/chrome/ui/header/collapsible_nav_group_enabled.tsx:132 | ordering by `order` is a permutation of the groups |
| CollapsibleNav.SystemLink | src/core/public/chrome/ui/header/collapsible_nav_group_enabled.tsx:135-145 | a system group contributes at most one link, one exactly when it has a fulfilled link: that link's id with the group's title in the manage category |
| CollapsibleNav.RegisteredIds | src/core/public/chrome/ui/header/collapsible_nav_group_enabled.tsx:159-161 | an id is collected exactly when some group of the map registers a link with that id |
| CollapsibleNav.PushEach | src/core/public/chrome/ui/header/collapsible_nav_group_enabled.tsx:172-174 | pushing each link appends the links, in order, to the list built so far |
| CollapsibleNav.PushRecategorised | src/core/public/chrome/ui/header/collapsible_nav_group_enabled.tsx:162-169 | pushing each link with a new category appends the recategorised links, in order |
| CollapsibleNav.GetSystemNavGroups | src/core/public/chrome/ui/header/collapsible_nav_group_enabled.tsx:129-149 | the result is exactly the system links of the system groups, taken in ascending order |
| CollapsibleNav.PushSystemLinks | src/core/public/chrome/ui/header/collapsible_nav_group_enabled.tsx:134-146 | the push loop appends, group by group, each group's first fulfilled link retitled in the manage category |
| CollapsibleNav.PushUseCaseSection | src/core/public/chrome/ui/header/collapsible_nav_group_enabled.tsx:178-223 | one pass of the loop appends exactly the group's section, computed against the list as it was before the pass |
| CollapsibleNav.PushUseCaseSections | src/core/public/chrome/ui/header/collapsible_nav_group_enabled.tsx:177-224 | the loop over use-case groups builds exactly the sections, each one checked against the list built before it |
| CollapsibleNav.PushAllModeLinks | src/core/public/chrome/ui/header/collapsible_nav_group_enabled.tsx:157-225 | the "all" branch builds the unregistered links, then the "all" group's links, then the sections |
| CollapsibleNav.NavLinksForRender | src/core/public/chrome/ui/header/collapsible_nav_group_enabled.tsx:151-231 | the result is the final fulfilment of the list: the specific group's links, then the "all" set-up, then the system links when they are appended |
| CollapsibleNav.OnGroupClick | src/core/public/chrome/ui/header/collapsible_nav_group_enabled.tsx:247-268 | the clicked group becomes current, and the browser goes to its first fulfilled link exactly when it has one |
| CollapsibleNav.OnNavItemClick | src/core/public/chrome/ui/header/collapsible_nav_group_enabled.tsx:328-333 | only a "See all..." item with a truthy category id dispatches; it selects the group stored under that id, and a missing group is the failing case |
| CollapsibleNavProperties.ManageAppendedExactlyWhen | src/core/public/chrome/ui/header/collapsible_nav_group_enabled.tsx:105-121 | the manage links are appended, in terms of the current group, the visible use cases and the capability, for exactly the listed cases |
| CollapsibleNavProperties.SpecificGroupLinks | src/core/public/chrome/ui/header/collapsible_nav_group_enabled.tsx:153-155 | with a specific group other than "all", the list is exactly that group's registered links followed by the system links when appended |
| CollapsibleNavProperties.SpecificGroupHasNoManageLinks | src/core/public/chrome/ui/header/collapsible_nav_group_enabled.tsx:119-155 | with the manage flag the component computes, a specific group other than "all" never gets the system links, so its list is exactly its registered links |
| CollapsibleNavProperties.AllModeLinksThenSystemLinks | src/core/public/chrome/ui/header/collapsible_nav_group_enabled.tsx:151-229 | for the "all" use case, the list is the "all"-mode list followed by the system links when appended |
| CollapsibleNavProperties.NoGroupLinks | src/core/public/chrome/ui/header/collapsible_nav_group_enabled.tsx:151-229 | with no truthy effective id, the list is only the system links, when appended |
| CollapsibleNavProperties.UseCaseSectionsExtend | src/core/public/chrome/ui/header/collapsible_nav_group_enabled.tsx:177-224 | the section loop only appends: the list it starts from stays a prefix |
| CollapsibleNavProperties.UnregisteredLinksAreCustom | src/core/public/chrome/ui/header/collapsible_nav_group_enabled.tsx:159-169 | every link taken for being registered nowhere is a visible link, registered in no group, moved to the custom category |
| CollapsibleNavProperties.UnregisteredLinksAreAllTaken | src/core/public/chrome/ui/header/collapsible_nav_group_enabled.tsx:159-169 | every visible link registered in no group is taken, in the custom category |
| CollapsibleNavProperties.AllModeOpensWithUnregisteredLinks | src/core/public/chrome/ui/header/collapsible_nav_group_enabled.tsx:157-174 | in "all" mode the list opens with the unregistered links, followed by the links of the "all" group |
| CollapsibleNavProperties.SeeAllEntryFollowsShownLinks | src/core/public/chrome/ui/header/collapsible_nav_group_enabled.tsx:191-206 | a group with "show in all" links appends exactly its fulfilled links marked "show in all", in order and in its own category, and then exactly one "See all..." entry with its first fulfilled link's id and order MAX_SAFE_INTEGER |
| CollapsibleNavProperties.FallbackAddsOnlyUnlistedLinks | src/core/public/chrome/ui/header/collapsible_nav_group_enabled.tsx:207-222 | a group without "show in all" links gets no "See all..." entry; it appends exactly its fulfilled links whose id is not listed yet, in the custom category |
| CollapsibleNavProperties.FallbackKeepsIdsDistinct | src/core/public/chrome/ui/header/collapsible_nav_group_enabled.tsx:212-222 | the fallback adds no id that is already listed: distinct ids stay distinct when the group's fulfilled links have distinct ids |
| CollapsibleNavProperties.FallbackKeepsDuplicatesWithinOneGroup | src/core/public/chrome/ui/header/collapsible_nav_group_enabled.tsx:212-222 | the filter runs before any push, so two fulfilled links of one group with the same id are both appended |
| CollapsibleNavProperties.SystemLinksAtMostOnePerGroup | src/core/public/chrome/ui/header/collapsible_nav_group_enabled.tsx:134-146 | each system group contributes at most one link |
| CollapsibleNavProperties.SystemLinksAreManageEntries | src/core/public/chrome/ui/header/collapsible_nav_group_enabled.tsx:135-145 | the system links are exactly the groups' first fulfilled links, retitled with the group title and put in the manage category |
| CollapsibleNavProperties.InsertKeepsSorted | src/core/public/chrome/ui/header/collapsible_nav_group_enabled.tsx:132 | inserting into a list sorted by `order` keeps it sorted |
| CollapsibleNavProperties.SortByOrderSorted | src/core/public/chrome/ui/header/collapsible_nav_group_enabled.tsx:132 | the ordering puts the groups in ascending `order` |
| CollapsibleNavProperties.SystemGroupsAscending | src/core/public/chrome/ui/header/collapsible_nav_group_enabled.tsx:131-133 | the system groups are processed in ascending `order` |
| CollapsibleNavProperties.SystemGroupsAreTheSystemTyped | src/core/public/chrome/ui/header/collapsible_nav_group_enabled.tsx:131-133 | the processed groups are exactly the map's groups of system type, each as often as in the map |
| CollapsibleNavProperties.SeeAllClickSelectsItsGroup | src/core/public/chrome/ui/header/collapsible_nav_group_enabled.tsx:328-332 | clicking the "See all..." entry of a group of a well-formed map selects that group and opens its first fulfilled link, if any |
| Workspaces.FindUseCase | src/plugins/workspace/public/components/workspace_picker_content/workspace_picker_content.tsx:92 | the first available use case whose id is the given one, nothing exactly when none has it |
| Workspaces.GetUseCase | src/plugins/workspace/public/components/workspace_picker_content/workspace_picker_content.tsx:87-93 | nothing without features; otherwise a use case exists exactly when some available use case has the derived id, and it is the first of them; the menu defines the same lookup (workspace_menu.tsx, lines 58-64) |
| Text.Lower | src/plugins/workspace/public/components/workspace_picker_content/workspace_picker_content.tsx:72-73 | lowercasing keeps the length and maps each character on its own |
| Text.IncludesIffOccurs | src/plugins/workspace/public/components/workspace_picker_content/workspace_picker_content.tsx:73 | `includes` holds exactly when the substring occurs at some position |
| Text.Trim | src/plugins/workspace/public/components/workspace_picker_content/workspace_picker_content.tsx:71 | the trimmed text starts and ends with no white space; with `Text.TrimIsSlice`, it is the slice of the input left once the white space at both ends is cut away |
| Text.TrimIsSlice | src/plugins/workspace/public/components/workspace_picker_content/workspace_picker_content.tsx:71 | the trimmed text is a contiguous slice of the input, and everything removed before and after it is white space |
| Text.TrimEmptyIffBlank | src/plugins/workspace/public/components/workspace_picker_content/workspace_picker_content.tsx:71 | the trimmed text is empty exactly when every character is white space |
| WorkspacePicker.MatchIffOccurs | src/plugins/workspace/public/components/workspace_picker_content/workspace_picker_content.tsx:72-73 | a workspace matches exactly when the lowercased query occurs at some position of its lowercased name |
| WorkspacePicker.MatchIgnoresCase | src/plugins/workspace/public/components/workspace_picker_content/workspace_picker_content.tsx:72-73 | the match is the same with the query or the name lowercased first |
| WorkspacePicker.QueryFromList | src/plugins/workspace/public/components/workspace_picker_content/workspace_picker_content.tsx:66-78 | an empty list gives an empty list; a blank query gives the list itself; otherwise an order-keeping subsequence with exactly the matching workspaces, each as often as in the list |
| WorkspacePicker.QueryIdempotent | src/plugins/workspace/public/components/workspace_picker_content/workspace_picker_content.tsx:71-77 | searching a search result again with the same query changes nothing |
| WorkspacePicker.QueryIsNotTrimmed | src/plugins/workspace/public/components/workspace_picker_content/workspace_picker_content.tsx:71-73 | the query is not trimmed: " dev" finds nothing in a workspace named "dev", while "dev" finds it |
| WorkspacePicker.WorkspaceWithId | src/plugins/workspace/public/components/workspace_picker_content/workspace_picker_content.tsx:62 | the first workspace of the list with that id, nothing exactly when none has it |
| WorkspacePicker.ResolveRecent | src/plugins/workspace/public/components/workspace_picker_content/workspace_picker_content.tsx:59-64 | every resolved workspace is in the list, has a recent id and is the first workspace with that id; no more results than recent ids |
| WorkspacePicker.ResolveRecentKeepsOrder | src/plugins/workspace/public/components/workspace_picker_content/workspace_picker_content.tsx:59-64 | the ids of the resolved workspaces follow the order of the recent list |
| WorkspacePicker.ResolveRecentIds | src/plugins/workspace/public/components/workspace_picker_content/workspace_picker_content.tsx:59-64 | the ids of the resolved workspaces are exactly the recent ids that name a workspace, in order and with their repetitions |
| WorkspacePicker.ResolveRecentDropsOnlyUnknown | src/plugins/workspace/public/components/workspace_picker_content/workspace_picker_content.tsx:62-63 | a recent id is kept exactly when some workspace of the list has it |
| WorkspacePicker.Body | src/plugins/workspace/public/components/workspace_picker_content/workspace_picker_content.tsx:192-209 | with a search, the queried sections, and the prompt exactly when the queried list is empty; without, the plain sections, and the prompt exactly when there is no workspace; the prompt invites creation exactly for an administrator |
| WorkspacePicker.BlankSearchPromptsOnlyWhenNoWorkspace | src/plugins/workspace/public/components/workspace_picker_content/workspace_picker_content.tsx:192-209 | a blank search lists every workspace, and the prompt shows exactly when there is none |
| WorkspacePicker.ListedWorkspacesMatch | src/plugins/workspace/public/components/workspace_picker_content/workspace_picker_content.tsx:197-199 | under a non-blank search, the "all" section holds exactly the workspaces whose names match, and is absent when none matches |
| WorkspaceMenu.NextOpen | src/plugins/workspace/public/components/workspace_menu/workspace_menu.tsx:66-72 | the select button negates the flag; every other event leaves it false |
| WorkspaceMenu.NavigationOf | src/plugins/workspace/public/components/workspace_menu/workspace_menu.tsx:172-192 | Manage goes to the workspace list app, Create to the create app, a workspace to its use-case URL; the button and closing navigate nowhere |
| WorkspaceMenu.PressesToggle | src/plugins/workspace/public/components/workspace_menu/workspace_menu.tsx:66-68 | a run of presses restores the flag after an even number of them, two in particular |
| WorkspaceMenu.CloseForgetsHistory | src/plugins/workspace/public/components/workspace_menu/workspace_menu.tsx:70-72 | after any closing event the flag depends only on the presses that follow |
| WorkspaceMenu.RunAppend | src/plugins/workspace/public/components/workspace_menu/workspace_menu.tsx:66-72 | running two event sequences one after the other is running their concatenation |
| WorkspaceMenu.Menu.constructor | src/plugins/workspace/public/components/workspace_menu/workspace_menu.tsx:51 | the popover starts closed, with no navigation |
| WorkspaceMenu.Menu.OpenPopover | src/plugins/workspace/public/components/workspace_menu/workspace_menu.tsx:66-68 | the flag is negated |
| WorkspaceMenu.Menu.ClosePopover | src/plugins/workspace/public/components/workspace_menu/workspace_menu.tsx:70-72 | the flag is false whatever it was |
| WorkspaceMenu.Menu.ClickWorkspace | src/plugins/workspace/public/components/workspace_menu/workspace_menu.tsx:157 | the popover is closed and the workspace's use-case URL is the navigation |
| WorkspaceMenu.Menu.ClickManage | src/plugins/workspace/public/components/workspace_menu/workspace_menu.tsx:172-175 | the popover is closed and the workspace list app is the navigation |
| WorkspaceMenu.Menu.ClickCreate | src/plugins/workspace/public/components/workspace_menu/workspace_menu.tsx:189-192 | the popover is closed and the workspace create app is the navigation |
| WorkspaceMenu.Menu.Handle | src/plugins/workspace/public/components/workspace_menu/workspace_menu.tsx:74-89 | each event updates the flag as the event model says and records the navigation it requests |
| WorkspaceMenu.PressTwice | src/plugins/workspace/public/components/workspace_menu/workspace_menu.tsx:66-68 | two presses leave the popover as it was |
| WorkspaceMenu.CurrentWorkspaceName | src/plugins/workspace/public/components/workspace_menu/workspace_menu.tsx:56 | the current workspace's name, or "Workspaces" when there is none |
| WorkspaceMenu.IconOf | src/plugins/workspace/public/components/workspace_menu/workspace_menu.tsx:114 | the use case's icon when it is present and non-empty, otherwise `wsSelector`; never empty |
| WorkspaceMenu.UseCaseTitleOf | src/plugins/workspace/public/components/workspace_menu/workspace_menu.tsx:128 | the use case's title, or the empty string when there is no use case |
| WorkspaceMenu.View | src/plugins/workspace/public/components/workspace_menu/workspace_menu.tsx:108-202 | the header name; a subdued `wsSelector` icon and no title without a workspace, the use case's icon, not subdued, and title with one; Manage and Create exactly for an administrator |

## Left out

- Rendering and layout (flyout, popover, panels, list groups, spacers, class names, test ids, translations) are not modelled. Only the values they display and the decisions they depend on are.
- The observables, `useMemo` and `useState` are not modelled. Their current values are inputs, and the popover flag is a field of `Menu`.
- `fulfillRegistrationLinksToChromeNavLinks`, `getVisibleUseCases`, `getFirstUseCaseOfFeatureConfigs`, `getUseCaseUrl`, `createEuiListItem` and `recentWorkspaceManager` are not part of this model. Each is a parameter or an input, so no property depends on what they do.
- CollapsibleNav.NavLinksForRender: the properties are stated on the list before the final fulfilment. The rendered list is that list passed through the unknown fulfilment, and whether it is free of hidden links depends on it.
- CollapsibleNav.NavLinksForRender requires that a truthy effective id other than "all" is a key of the map. The source indexes the map there without a guard and would fail on a missing key.
- CollapsibleNav.SortByOrder: ascending order and permutation are proved; stability, which `sortBy('order')` provides, is not. The order is taken to be an always-defined integer, and the definition of `sortBy` is not part of this model.
- CollapsibleNav.OnGroupClick reads a group missing from the map as an empty registration list. The source passes `undefined` to the fulfilment there.
- The order of `Object.values` is taken to be the order of the pair list. JavaScript places integer-like keys first; that reordering is not modelled.
- `navigateToApp`, `navigateToUrl` and `window.location.assign` are left out. The menu records the requested target in the ghost field `lastNavigation`, and `createEuiListItem`'s click is the `navigateTo` link of `GroupClick`.
- Text.Lower lowercases only ASCII letters, where `toLowerCase` covers all of Unicode.
- The workspace colour is carried but not checked: `validateWorkspaceColor` is not part of this model.
- The values of `ALL_USE_CASE_ID` (taken as "all"), `DEFAULT_APP_CATEGORIES.manage` (a parameter), `WORKSPACE_LIST_APP_ID` and `WORKSPACE_CREATE_APP_ID` (an enumeration) are defined in files outside this model.
- The search text is an input to the picker body; `setSearch` is not modelled.
- Three neighbouring files are not modelled: the Discover page's top navigation bar, the tests of the header's recent-items popover, and the type declarations of the query-suggestion provider. None of them takes part in building the navigation list, searching workspaces or driving the workspace menu.
