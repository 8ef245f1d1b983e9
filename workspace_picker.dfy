/** The workspace picker: search over the workspace list, resolution of the
    recently visited workspaces, and the choice of sections and empty-state
    prompt (workspace_picker_content.tsx). The `search` state is an input. */
module WorkspacePicker {
  import opened Common
  import opened Text
  import opened Workspaces

  /** The ids of a list of workspaces, in order. */
  function WorkspaceIds(list: seq<Workspace>): seq<string>
  {
    MapSeq(list, (w: Workspace) => w.id)
  }

  lemma WorkspaceIdsCons(w: Workspace, rest: seq<Workspace>)
    ensures WorkspaceIds([w] + rest) == [w.id] + WorkspaceIds(rest)
  {
  }

  /** A workspace matches when its lowercased name includes the lowercased
      query. The query is not trimmed. */
  predicate Matches(query: string, workspace: Workspace)
  {
    Includes(Lower(workspace.name), Lower(query))
  }

  /** A workspace matches exactly when the lowercased query occurs at some
      position of its lowercased name. */
  lemma MatchIffOccurs(query: string, workspace: Workspace)
    ensures Matches(query, workspace) <==> exists i :: OccursAt(Lower(workspace.name), Lower(query), i)
  {
    IncludesIffOccurs(Lower(workspace.name), Lower(query));
  }

  /** The match ignores letter case on both sides. */
  lemma MatchIgnoresCase(query: string, workspace: Workspace)
    ensures Matches(query, workspace) == Matches(Lower(query), workspace)
    ensures Matches(query, workspace) == Matches(query, workspace.(name := Lower(workspace.name)))
  {
    LowerIdempotent(query);
    LowerIdempotent(workspace.name);
  }

  /** `queryFromList({ list, query })`. The test `query.trim() !== ''` is
      written as `!IsBlank(query)`, which `TrimEmptyIffBlank` shows to be the
      same test. */
  function QueryFromList(list: seq<Workspace>, query: string): (r: seq<Workspace>)
    ensures list == [] ==> r == []
    ensures IsBlank(query) ==> r == list
    ensures !IsBlank(query) ==> IsSubsequence(r, list)
    ensures !IsBlank(query) ==> forall w :: w in r <==> w in list && Matches(query, w)
    ensures !IsBlank(query) ==> forall w :: multiset(r)[w] == if Matches(query, w) then multiset(list)[w] else 0
    ensures |r| <= |list|
  {
    if |list| == 0 then []
    else if query != "" && !IsBlank(query) then Filter(list, (w: Workspace) => Matches(query, w))
    else list
  }

  /** Searching the result of a search again with the same query gives the
      same list. */
  lemma QueryIdempotent(list: seq<Workspace>, query: string)
    ensures QueryFromList(QueryFromList(list, query), query) == QueryFromList(list, query)
  {
    if list != [] && !IsBlank(query) {
      var p := (w: Workspace) => Matches(query, w);
      FilterIdempotent(list, p);
      if Filter(list, p) == [] {
      }
    }
  }

  /** The string facts behind `QueryIsNotTrimmed`. */
  lemma SpacedQueryMissesName()
    ensures Lower(" dev") == " dev" && Lower("dev") == "dev"
    ensures !Includes("dev", " dev") && Includes("dev", "dev")
  {
    assert !Includes("", " dev");
    assert "v"[1..] == "";
    assert !Includes("v", " dev");
    assert "ev"[1..] == "v";
    assert !Includes("ev", " dev");
    assert "dev"[1..] == "ev";
  }

  /** Leading and trailing spaces of the query take part in the match: a
      query " dev" finds nothing in a workspace named "dev", while "dev"
      finds it. */
  lemma QueryIsNotTrimmed(w: Workspace)
    requires w.name == "dev"
    ensures QueryFromList([w], " dev") == []
    ensures QueryFromList([w], "dev") == [w]
  {
    SpacedQueryMissesName();
    assert " dev"[1] == 'd' && !IsBlank(" dev");
    assert "dev"[0] == 'd' && !IsBlank("dev");
    assert !Matches(" dev", w) && Matches("dev", w);
    assert [w][1..] == [];
  }

  /** The first workspace of the list with the given id (`list.find`). */
  function WorkspaceWithId(list: seq<Workspace>, id: string): (r: Option<Workspace>)
    ensures r.Some? ==> r.value in list && r.value.id == id
    ensures r.None? <==> forall k :: 0 <= k < |list| ==> list[k].id != id
    ensures r.Some? ==> exists k :: 0 <= k < |list| && list[k] == r.value &&
                          forall j :: 0 <= j < k ==> list[j].id != id
  {
    FindFirst(list, (ws: Workspace) => ws.id == id)
  }

  /** The recent-workspace id list (`getRecentWorkspaces`) resolved against
      the workspace list: each id is replaced by the first workspace with that
      id, and ids with no workspace are dropped. */
  function ResolveRecent(recentIds: seq<string>, list: seq<Workspace>): (r: seq<Workspace>)
    ensures |r| <= |recentIds|
    ensures forall w :: w in r ==> w in list && w.id in recentIds && WorkspaceWithId(list, w.id) == Some(w)
  {
    if recentIds == [] then []
    else
      var rest := ResolveRecent(recentIds[1..], list);
      match WorkspaceWithId(list, recentIds[0])
      case None => rest
      case Some(w) => [w] + rest
  }

  /** The resolved workspaces follow the order of the recent list. */
  lemma {:induction false} ResolveRecentKeepsOrder(recentIds: seq<string>, list: seq<Workspace>)
    ensures IsSubsequence(WorkspaceIds(ResolveRecent(recentIds, list)), recentIds)
  {
    if recentIds != [] {
      var rest := ResolveRecent(recentIds[1..], list);
      ResolveRecentKeepsOrder(recentIds[1..], list);
      match WorkspaceWithId(list, recentIds[0])
      case None =>
      case Some(w) =>
        WorkspaceIdsCons(w, rest);
    }
  }

  /** The test that a recent id names some workspace of the list. */
  function KnownIn(list: seq<Workspace>): string -> bool
  {
    (id: string) => WorkspaceWithId(list, id).Some?
  }

  /** The ids of the resolved workspaces are the recent ids that name a
      workspace, in the recent list's order and with its repetitions. */
  lemma {:induction false} ResolveRecentIds(recentIds: seq<string>, list: seq<Workspace>)
    ensures WorkspaceIds(ResolveRecent(recentIds, list)) == Filter(recentIds, KnownIn(list))
  {
    if recentIds != [] {
      var id := recentIds[0];
      var rest := ResolveRecent(recentIds[1..], list);
      var known := KnownIn(list);
      ResolveRecentIds(recentIds[1..], list);
      FilterCons(recentIds, known);
      match WorkspaceWithId(list, id)
      case None =>
        assert !known(id);
        assert ResolveRecent(recentIds, list) == rest;
      case Some(w) =>
        assert known(id) && w.id == id;
        assert ResolveRecent(recentIds, list) == [w] + rest;
        WorkspaceIdsCons(w, rest);
    }
  }

  /** A recent id is represented in the result exactly when some workspace of
      the list has that id; the others are dropped. */
  lemma {:induction false} ResolveRecentDropsOnlyUnknown(recentIds: seq<string>, list: seq<Workspace>, id: string)
    requires id in recentIds
    ensures (exists k :: 0 <= k < |list| && list[k].id == id) <==>
            (exists w :: w in ResolveRecent(recentIds, list) && w.id == id)
  {
    var rest := ResolveRecent(recentIds[1..], list);
    if id != recentIds[0] {
      ResolveRecentDropsOnlyUnknown(recentIds[1..], list, id);
    } else {
      match WorkspaceWithId(list, recentIds[0])
      case None =>
      case Some(w) =>
        assert w in [w] + rest;
    }
    var r := ResolveRecent(recentIds, list);
    if exists w :: w in r && w.id == id {
      var w :| w in r && w.id == id;
      assert w in list;
    }
  }

  /** The empty-state text: an invitation to create a workspace for a
      dashboard administrator, otherwise advice to contact the administrator. */
  datatype EmptyPrompt = CreateWorkspaceHint | ContactAdministratorHint

  /** What the picker body shows: the recent section, the all-workspaces
      section and the empty-state prompt, each when present. */
  datatype PickerBody = PickerBody(
    recent: Option<seq<Workspace>>,
    all: Option<seq<Workspace>>,
    emptyPrompt: Option<EmptyPrompt>)

  function SectionOf(list: seq<Workspace>): (r: Option<seq<Workspace>>)
    ensures r.Some? <==> list != []
    ensures r.Some? ==> r.value == list
  {
    if |list| > 0 then Some(list) else None
  }

  /** The body of the picker for the current search text. */
  function Body(search: string, workspaceList: seq<Workspace>, recent: seq<Workspace>, isDashboardAdmin: bool): (r: PickerBody)
    ensures search != "" ==> r.all == SectionOf(QueryFromList(workspaceList, search))
    ensures search != "" ==> r.recent == SectionOf(QueryFromList(recent, search))
    ensures search == "" ==> r.all == SectionOf(workspaceList) && r.recent == SectionOf(recent)
    ensures r.emptyPrompt.Some? <==> if search != "" then QueryFromList(workspaceList, search) == [] else workspaceList == []
    ensures r.emptyPrompt.Some? <==> r.all.None?
    ensures r.emptyPrompt.Some? ==> (r.emptyPrompt.value == CreateWorkspaceHint <==> isDashboardAdmin)
  {
    var prompt := if isDashboardAdmin then CreateWorkspaceHint else ContactAdministratorHint;
    if search != "" then
      var queriedRecent := QueryFromList(recent, search);
      var queried := QueryFromList(workspaceList, search);
      PickerBody(SectionOf(queriedRecent), SectionOf(queried), if |queried| == 0 then Some(prompt) else None)
    else
      PickerBody(SectionOf(recent), SectionOf(workspaceList), if |workspaceList| == 0 then Some(prompt) else None)
  }

  /** A search made only of white space lists everything, so the prompt then
      appears exactly when there is no workspace at all. */
  lemma BlankSearchPromptsOnlyWhenNoWorkspace(search: string, workspaceList: seq<Workspace>, recent: seq<Workspace>, isDashboardAdmin: bool)
    requires IsBlank(search)
    ensures Body(search, workspaceList, recent, isDashboardAdmin).emptyPrompt.Some? <==> workspaceList == []
    ensures Body(search, workspaceList, recent, isDashboardAdmin).all == SectionOf(workspaceList)
  {
  }

  /** Under a non-blank search, the "all" section lists exactly the
      workspaces of the list whose name matches, and is absent exactly when
      none matches. */
  lemma ListedWorkspacesMatch(search: string, workspaceList: seq<Workspace>, recent: seq<Workspace>, isDashboardAdmin: bool, w: Workspace)
    requires !IsBlank(search)
    ensures var all := Body(search, workspaceList, recent, isDashboardAdmin).all;
      (all.None? ==> !(w in workspaceList && Matches(search, w))) &&
      (all.Some? ==> (w in all.value <==> w in workspaceList && Matches(search, w)))
  {
    if w in workspaceList && Matches(search, w) {
      assert w in QueryFromList(workspaceList, search);
    }
  }
}
