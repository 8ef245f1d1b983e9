/** The workspace menu (workspace_menu.tsx): a popover whose one piece of
    state is `isPopoverOpen`, the header that shows the current workspace,
    and the Manage / Create controls for dashboard administrators. */
module WorkspaceMenu {
  import opened Common
  import opened Workspaces

  const DEFAULT_HEADER_NAME: string := "Workspaces"
  const WORKSPACE_SELECTOR_ICON: string := "wsSelector"

  /** The two applications the menu navigates to (`WORKSPACE_LIST_APP_ID`,
      `WORKSPACE_CREATE_APP_ID`). */
  datatype AppId = WorkspaceListApp | WorkspaceCreateApp

  /** Where a click sends the browser: an application, or the use-case URL
      of a workspace assigned to `window.location`. */
  datatype NavTarget = App(app: AppId) | Url(url: string)

  /** The user actions the menu reacts to. */
  datatype MenuEvent =
    | SelectButtonClick       // the "workspace-select-button" icon: openPopover
    | PopoverClose            // EuiPopover's closePopover (outside click, Escape)
    | WorkspaceClick(url: string)  // a workspace of the picker: onClickWorkspace
    | ManageClick             // "Manage", for dashboard administrators
    | CreateClick             // "Create workspace", for dashboard administrators

  /** The open flag after one event: the select button toggles it, every
      other event closes the popover. */
  function NextOpen(open: bool, e: MenuEvent): (r: bool)
    ensures e == SelectButtonClick ==> r == !open
    ensures e != SelectButtonClick ==> !r
  {
    match e
    case SelectButtonClick => !open
    case _ => false
  }

  /** The navigation an event triggers, if any. */
  function NavigationOf(e: MenuEvent): (r: Option<NavTarget>)
    ensures e == ManageClick ==> r == Some(App(WorkspaceListApp))
    ensures e == CreateClick ==> r == Some(App(WorkspaceCreateApp))
    ensures e.WorkspaceClick? ==> r == Some(Url(e.url))
    ensures e == SelectButtonClick || e == PopoverClose ==> r.None?
  {
    match e
    case ManageClick => Some(App(WorkspaceListApp))
    case CreateClick => Some(App(WorkspaceCreateApp))
    case WorkspaceClick(url) => Some(Url(url))
    case _ => None
  }

  /** The open flag after a sequence of events, from `open`. */
  function RunOpen(open: bool, events: seq<MenuEvent>): bool
    decreases |events|
  {
    if events == [] then open else RunOpen(NextOpen(open, events[0]), events[1..])
  }

  /** Only presses of the select button. */
  predicate OnlyPresses(events: seq<MenuEvent>)
  {
    forall k :: 0 <= k < |events| ==> events[k] == SelectButtonClick
  }

  /** A run of presses flips the flag once per press: an even number of
      presses, two in particular, restores it. */
  lemma {:induction false} PressesToggle(open: bool, events: seq<MenuEvent>)
    requires OnlyPresses(events)
    ensures RunOpen(open, events) == (if |events| % 2 == 0 then open else !open)
    decreases |events|
  {
    if events != [] {
      assert OnlyPresses(events[1..]) by {
        forall k | 0 <= k < |events[1..]| ensures events[1..][k] == SelectButtonClick {
          assert events[1..][k] == events[k + 1];
        }
      }
      PressesToggle(!open, events[1..]);
    }
  }

  /** After any closing event, the popover is open exactly when an odd number
      of presses followed it: the state before the close is forgotten. */
  lemma {:induction false} CloseForgetsHistory(open: bool, before: seq<MenuEvent>, e: MenuEvent, after: seq<MenuEvent>)
    requires e != SelectButtonClick
    requires OnlyPresses(after)
    ensures RunOpen(open, before + [e] + after) == (|after| % 2 == 1)
  {
    RunAppend(open, before, [e] + after);
    assert ([e] + after)[0] == e && ([e] + after)[1..] == after;
    assert before + [e] + after == before + ([e] + after);
    PressesToggle(false, after);
  }

  /** Running two sequences one after the other. */
  lemma {:induction false} RunAppend(open: bool, xs: seq<MenuEvent>, ys: seq<MenuEvent>)
    ensures RunOpen(open, xs + ys) == RunOpen(RunOpen(open, xs), ys)
    decreases |xs|
  {
    if xs == [] {
      assert xs + ys == ys;
    } else {
      assert (xs + ys)[0] == xs[0] && (xs + ys)[1..] == xs[1..] + ys;
      RunAppend(NextOpen(open, xs[0]), xs[1..], ys);
    }
  }

  /** The menu component's state. `lastNavigation` records the last
      navigation a click requested; the navigation itself is not modelled. */
  class Menu {
    var isPopoverOpen: bool
    ghost var lastNavigation: Option<NavTarget>

    /** The popover starts closed (`useState(false)`). */
    constructor ()
      ensures !isPopoverOpen && lastNavigation.None?
    {
      isPopoverOpen := false;
      lastNavigation := None;
    }

    /** `openPopover`: toggles the flag. */
    method OpenPopover()
      modifies this
      ensures isPopoverOpen == !old(isPopoverOpen)
      ensures lastNavigation == old(lastNavigation)
    {
      isPopoverOpen := !isPopoverOpen;
    }

    /** `closePopover`: closes, whatever the flag was. */
    method ClosePopover()
      modifies this
      ensures !isPopoverOpen
      ensures lastNavigation == old(lastNavigation)
    {
      isPopoverOpen := false;
    }

    /** A workspace clicked in the picker: `onClickWorkspace` closes the
        popover, then the browser goes to the workspace's use-case URL. */
    method ClickWorkspace(useCaseUrl: string)
      modifies this
      ensures !isPopoverOpen
      ensures lastNavigation == Some(Url(useCaseUrl))
    {
      isPopoverOpen := false;
      lastNavigation := Some(Url(useCaseUrl));
    }

    /** "Manage": close the popover and open the workspace list. */
    method ClickManage()
      modifies this
      ensures !isPopoverOpen
      ensures lastNavigation == Some(App(WorkspaceListApp))
    {
      ClosePopover();
      lastNavigation := Some(App(WorkspaceListApp));
    }

    /** "Create workspace": close the popover and open workspace creation. */
    method ClickCreate()
      modifies this
      ensures !isPopoverOpen
      ensures lastNavigation == Some(App(WorkspaceCreateApp))
    {
      ClosePopover();
      lastNavigation := Some(App(WorkspaceCreateApp));
    }

    /** Dispatches one event to its handler. */
    method Handle(e: MenuEvent)
      modifies this
      ensures isPopoverOpen == NextOpen(old(isPopoverOpen), e)
      ensures lastNavigation == if NavigationOf(e).Some? then NavigationOf(e) else old(lastNavigation)
    {
      match e
      case SelectButtonClick => OpenPopover();
      case PopoverClose => ClosePopover();
      case WorkspaceClick(url) => ClickWorkspace(url);
      case ManageClick => ClickManage();
      case CreateClick => ClickCreate();
    }
  }

  /** Two presses of the select button leave the popover as it was. */
  method PressTwice(menu: Menu)
    modifies menu
    ensures menu.isPopoverOpen == old(menu.isPopoverOpen)
  {
    menu.OpenPopover();
    menu.OpenPopover();
  }

  /** The current workspace's name, or the default header name when no
      workspace is current. */
  function CurrentWorkspaceName(current: Option<Workspace>): (r: string)
    ensures current.Some? ==> r == current.value.name
    ensures current.None? ==> r == DEFAULT_HEADER_NAME
  {
    match current
    case Some(ws) => ws.name
    case None => DEFAULT_HEADER_NAME
  }

  /** The use case's icon, falling back to the workspace selector icon when
      the use case is absent, has no icon or has an empty icon name. */
  function IconOf(useCase: Option<UseCase>): (r: string)
    ensures r != ""
    ensures useCase.None? ==> r == WORKSPACE_SELECTOR_ICON
    ensures useCase.Some? && useCase.value.icon.Some? && useCase.value.icon.value != "" ==> r == useCase.value.icon.value
    ensures r != WORKSPACE_SELECTOR_ICON ==> useCase.Some? && useCase.value.icon == Some(r)
  {
    if useCase.Some? && useCase.value.icon.Some? && useCase.value.icon.value != "" then useCase.value.icon.value
    else WORKSPACE_SELECTOR_ICON
  }

  /** The use case's title, or the empty string when there is no use case. */
  function UseCaseTitleOf(useCase: Option<UseCase>): (r: string)
    ensures useCase.None? ==> r == ""
    ensures useCase.Some? ==> r == useCase.value.title
  {
    if useCase.Some? then useCase.value.title else ""
  }

  /** The header of the popover and whether the admin controls follow it. */
  datatype MenuView = MenuView(
    icon: string,
    iconSubdued: bool,
    name: string,
    useCaseTitle: Option<string>,
    showsManageAndCreate: bool)

  /** What the popover shows for the current workspace (or none). */
  function View(current: Option<Workspace>, useCases: seq<UseCase>, firstUseCaseOf: FirstUseCaseOf, isDashboardAdmin: bool): (r: MenuView)
    ensures r.name == CurrentWorkspaceName(current)
    ensures r.showsManageAndCreate == isDashboardAdmin
    ensures current.None? ==> r.icon == WORKSPACE_SELECTOR_ICON && r.iconSubdued && r.useCaseTitle.None?
    ensures current.Some? ==> !r.iconSubdued
    ensures current.Some? ==> r.icon == IconOf(GetUseCase(current.value, useCases, firstUseCaseOf))
    ensures current.Some? ==> r.useCaseTitle == Some(UseCaseTitleOf(GetUseCase(current.value, useCases, firstUseCaseOf)))
    ensures current.Some? && current.value.features.None? ==> r.icon == WORKSPACE_SELECTOR_ICON && r.useCaseTitle == Some("")
  {
    match current
    case None => MenuView(WORKSPACE_SELECTOR_ICON, true, CurrentWorkspaceName(current), None, isDashboardAdmin)
    case Some(ws) =>
      var useCase := GetUseCase(ws, useCases, firstUseCaseOf);
      MenuView(IconOf(useCase), false, CurrentWorkspaceName(current), Some(UseCaseTitleOf(useCase)), isDashboardAdmin)
  }
}
