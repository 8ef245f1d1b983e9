/** The workspace records both the workspace menu and the workspace picker
    read, and the use-case lookup they define identically
    (`getUseCase` in workspace_picker_content.tsx and workspace_menu.tsx). */
module Workspaces {
  import opened Common

  /** A workspace object; `features` is `undefined` when `None`. */
  datatype Workspace = Workspace(
    id: string,
    name: string,
    features: Option<seq<string>>,
    color: Option<string>)

  /** A registered use case; only the fields the two components read. */
  datatype UseCase = UseCase(id: string, title: string, icon: Option<string>)

  /** `getFirstUseCaseOfFeatureConfigs`, whose definition is not part of this
      model: it maps a feature list to a use-case id or to `undefined`. */
  type FirstUseCaseOf = seq<string> -> Option<string>

  /** The first available use case whose id is the given one, if any. */
  function FindUseCase(useCases: seq<UseCase>, useCaseId: Option<string>): (r: Option<UseCase>)
    ensures r.Some? ==> r.value in useCases && useCaseId == Some(r.value.id)
    ensures r.None? <==> forall k :: 0 <= k < |useCases| ==> useCaseId != Some(useCases[k].id)
    ensures r.Some? ==> exists k :: 0 <= k < |useCases| && useCases[k] == r.value &&
                          forall j :: 0 <= j < k ==> useCases[j].id != r.value.id
  {
    FindFirst(useCases, (u: UseCase) => useCaseId == Some(u.id))
  }

  /** `getUseCase(workspace)`: nothing for a workspace whose `features` is
      absent; otherwise the first available use case whose id is the one
      derived from the features. An empty feature list is present (an empty
      array is truthy), so it is looked up like any other. */
  function GetUseCase(workspace: Workspace, useCases: seq<UseCase>, firstUseCaseOf: FirstUseCaseOf): (r: Option<UseCase>)
    ensures workspace.features.None? ==> r.None?
    ensures workspace.features.Some? ==>
      (r.Some? <==> exists k :: 0 <= k < |useCases| && firstUseCaseOf(workspace.features.value) == Some(useCases[k].id))
    ensures r.Some? ==> r.value in useCases && firstUseCaseOf(workspace.features.value) == Some(r.value.id)
    ensures r.Some? ==> exists k :: 0 <= k < |useCases| && useCases[k] == r.value &&
                          forall j :: 0 <= j < k ==> useCases[j].id != r.value.id
  {
    if workspace.features.None? then None
    else FindUseCase(useCases, firstUseCaseOf(workspace.features.value))
  }
}
