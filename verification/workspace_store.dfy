/** WorkspaceManagerService as pure state transitions over the manager record:
    every host interaction (clock, id generator, tab capture, tab opening) is a
    parameter. */
module WorkspaceStore {
  import opened Types
  import opened TabReplay

  /** The manager record after load-time normalisation: `workspaces` is
      always present. */
  datatype Manager = Manager(workspaces: seq<Workspace>, currentWorkspaceId: Option<string>)

  /** An operation's return value together with the state it leaves. */
  datatype Step<T> = Step(value: T, state: Manager)

  /** The result of a switch: success flag, new state, and what replay did. */
  datatype Switched = Switched(ok: bool, state: Manager, replay: seq<Attempt>)

  /** JavaScript truthiness of an optional id: absent and "" are both false. */
  predicate Truthy(p: Option<string>) {
    p.Some? && p.value != ""
  }

  ghost predicate HasId(ws: seq<Workspace>, id: string) {
    exists i :: 0 <= i < |ws| && ws[i].id == id
  }

  /** `findIndex(w => w.id === id)`: the first position holding `id`. */
  function FindIndex(ws: seq<Workspace>, id: string): (r: Option<nat>)
    ensures r.None? <==> !HasId(ws, id)
    ensures r.Some? ==> r.value < |ws| && ws[r.value].id == id
    ensures r.Some? ==> forall j :: 0 <= j < r.value ==> ws[j].id != id
    decreases |ws|
  {
    if |ws| == 0 then None
    else if ws[0].id == id then Some(0)
    else
      match FindIndex(ws[1..], id)
      case None => None
      case Some(k) => Some(k + 1)
  }

  /** Position of the current workspace: none when the pointer is falsy or
      names no workspace. */
  function CurrentIndex(m: Manager): (r: Option<nat>)
    ensures r.None? <==> !Truthy(m.currentWorkspaceId) || !HasId(m.workspaces, m.currentWorkspaceId.value)
    ensures r.Some? ==> r.value < |m.workspaces| && m.workspaces[r.value].id == m.currentWorkspaceId.value
    ensures r.Some? ==> forall j :: 0 <= j < r.value ==> m.workspaces[j].id != m.currentWorkspaceId.value
  {
    if Truthy(m.currentWorkspaceId) then FindIndex(m.workspaces, m.currentWorkspaceId.value) else None
  }

  /** Normalisation shared by the constructor and setData: a missing
      `workspaces` becomes empty, everything else is kept as given. */
  function SetData(d: StoredData): (m: Manager)
    ensures d.workspaces.None? ==> m.workspaces == []
    ensures d.workspaces.Some? ==> m.workspaces == d.workspaces.value
    ensures m.currentWorkspaceId == d.currentWorkspaceId
  {
    Manager(d.workspaces.GetOr([]), d.currentWorkspaceId)
  }

  /** The constructor: no initial data means an empty manager with no
      current workspace. */
  function New(init: Option<StoredData>): (m: Manager)
    ensures init.None? ==> m.workspaces == [] && m.currentWorkspaceId.None?
    ensures init.Some? ==> m == SetData(init.value)
  {
    match init
    case None => Manager([], None)
    case Some(d) => SetData(d)
  }

  /** getData: the whole state, as persisted. It never yields a missing
      list, and loading it back gives the same state. */
  function GetData(m: Manager): (d: StoredData)
    ensures d.workspaces.Some?
    ensures SetData(d) == m
  {
    StoredData(Some(m.workspaces), m.currentWorkspaceId)
  }

  /** getWorkspaces: the list getData exports, never null. */
  function GetWorkspaces(m: Manager): (ws: seq<Workspace>)
    ensures GetData(m).workspaces == Some(ws)
  {
    m.workspaces
  }

  /** getCurrentWorkspace. */
  function GetCurrentWorkspace(m: Manager): (r: Option<Workspace>)
    ensures r.None? <==> !Truthy(m.currentWorkspaceId) || !HasId(m.workspaces, m.currentWorkspaceId.value)
    ensures r.Some? ==> r.value in m.workspaces && r.value.id == m.currentWorkspaceId.value
    ensures r.Some? ==> exists i :: 0 <= i < |m.workspaces| && m.workspaces[i] == r.value
                                   && forall j :: 0 <= j < i ==> m.workspaces[j].id != r.value.id
  {
    match CurrentIndex(m)
    case None => None
    case Some(i) => Some(m.workspaces[i])
  }

  /** getCurrentTabs in this revision: the host's editor list is only
      logged, and the captured snapshot is always empty. */
  function GetCurrentTabs(): (tabs: seq<TabState>)
    ensures |tabs| == 0
  {
    []
  }

  /** createWorkspace: `freshId` stands for generateId, `snapshot` for
      getCurrentTabs, `now` for the clock. */
  function CreateWorkspace(m: Manager, data: CreateWorkspaceData, freshId: string,
                           snapshot: seq<TabState>, now: int): (r: Step<Workspace>)
    ensures |r.state.workspaces| == |m.workspaces| + 1
    ensures r.state.workspaces[..|m.workspaces|] == m.workspaces
    ensures r.state.workspaces[|m.workspaces|] == r.value
    ensures r.value.id == freshId && r.value.name == data.name && r.value.description == data.description
    ensures r.value.tabs == snapshot
    ensures r.value.createdAt == now && r.value.updatedAt == now
    ensures r.state.currentWorkspaceId == Some(freshId)
  {
    var w := Workspace(freshId, data.name, data.description, snapshot, now, now);
    Step(w, Manager(m.workspaces + [w], Some(freshId)))
  }

  /** updateWorkspace: overwrite the fields that are present, bump updatedAt. */
  function UpdateWorkspace(m: Manager, data: UpdateWorkspaceData, now: int): (r: Step<Option<Workspace>>)
    ensures r.value.None? <==> !HasId(m.workspaces, data.id)
    ensures r.value.None? ==> r.state == m
    ensures r.state.currentWorkspaceId == m.currentWorkspaceId
    ensures |r.state.workspaces| == |m.workspaces|
    ensures r.value.Some? ==>
              var i := FindIndex(m.workspaces, data.id).value;
              var (w, w') := (m.workspaces[i], r.state.workspaces[i]);
              && r.value == Some(w')
              && w'.id == w.id && w'.tabs == w.tabs && w'.createdAt == w.createdAt
              && w'.name == (if data.name.Some? then data.name.value else w.name)
              && w'.description == (if data.description.Some? then data.description else w.description)
              && w'.updatedAt == now
              && forall j :: 0 <= j < |m.workspaces| && j != i ==> r.state.workspaces[j] == m.workspaces[j]
  {
    match FindIndex(m.workspaces, data.id)
    case None => Step(None, m)
    case Some(i) =>
      var w := m.workspaces[i];
      var w' := w.(name := data.name.GetOr(w.name),
                   description := if data.description.Some? then data.description else w.description,
                   updatedAt := now);
      Step(Some(w'), m.(workspaces := m.workspaces[i := w']))
  }

  /** deleteWorkspace: remove the first workspace with `id`; clear the pointer
      when it equals `id`. */
  function DeleteWorkspace(m: Manager, id: string): (r: Step<bool>)
    ensures r.value <==> HasId(m.workspaces, id)
    ensures !r.value ==> r.state == m
    ensures r.value ==>
              var i := FindIndex(m.workspaces, id).value;
              && |r.state.workspaces| == |m.workspaces| - 1
              && r.state.workspaces[..i] + [m.workspaces[i]] + r.state.workspaces[i..] == m.workspaces
    ensures r.value ==> (r.state.currentWorkspaceId.None? <==> m.currentWorkspaceId.None? || m.currentWorkspaceId == Some(id))
    ensures r.value && m.currentWorkspaceId != Some(id) ==> r.state.currentWorkspaceId == m.currentWorkspaceId
  {
    match FindIndex(m.workspaces, id)
    case None => Step(false, m)
    case Some(i) =>
      var ws := m.workspaces[..i] + m.workspaces[i + 1..];
      assert ws[..i] + [m.workspaces[i]] + ws[i..] == m.workspaces;
      var ptr := if m.currentWorkspaceId == Some(id) then None else m.currentWorkspaceId;
      Step(true, Manager(ws, ptr))
  }

  /** The save step shared by switch and save: the current workspace, if any,
      takes the snapshot as its tabs and `now` as its updatedAt. */
  function SaveStep(m: Manager, snapshot: seq<TabState>, now: int): seq<Workspace> {
    match CurrentIndex(m)
    case None => m.workspaces
    case Some(c) => m.workspaces[c := m.workspaces[c].(tabs := snapshot, updatedAt := now)]
  }

  /** saveCurrentWorkspace. */
  function SaveCurrentWorkspace(m: Manager, snapshot: seq<TabState>, now: int): (r: Step<bool>)
    ensures r.value <==> Truthy(m.currentWorkspaceId) && HasId(m.workspaces, m.currentWorkspaceId.value)
    ensures !r.value ==> r.state == m
    ensures r.state.currentWorkspaceId == m.currentWorkspaceId
    ensures |r.state.workspaces| == |m.workspaces|
    ensures r.value ==>
              var c := CurrentIndex(m).value;
              && r.state.workspaces[c].id == m.workspaces[c].id
              && r.state.workspaces[c].name == m.workspaces[c].name
              && r.state.workspaces[c].description == m.workspaces[c].description
              && r.state.workspaces[c].createdAt == m.workspaces[c].createdAt
              && r.state.workspaces[c].tabs == snapshot
              && r.state.workspaces[c].updatedAt == now
              && forall j :: 0 <= j < |m.workspaces| && j != c ==> r.state.workspaces[j] == m.workspaces[j]
  {
    if CurrentIndex(m).None? then Step(false, m)
    else Step(true, m.(workspaces := SaveStep(m, snapshot, now)))
  }

  /** switchToWorkspace: save the current workspace, move the pointer, then
      replay the target's tabs as they read after the save step. */
  function SwitchToWorkspace(m: Manager, id: string, snapshot: seq<TabState>, now: int,
                             opener: Opener): (r: Switched)
    ensures r.ok <==> HasId(m.workspaces, id)
    ensures !r.ok ==> r.state == m && r.replay == []
    ensures r.ok ==> r.state.currentWorkspaceId == Some(id)
    ensures r.ok ==> |r.state.workspaces| == |m.workspaces|
    ensures r.ok && CurrentIndex(m).Some? ==>
              var c := CurrentIndex(m).value;
              r.state.workspaces[c] == m.workspaces[c].(tabs := snapshot, updatedAt := now)
    ensures r.ok ==> forall j :: 0 <= j < |m.workspaces| && CurrentIndex(m) != Some(j) ==>
              r.state.workspaces[j] == m.workspaces[j]
    ensures r.ok ==> r.replay == ReplayLog(r.state.workspaces[FindIndex(m.workspaces, id).value].tabs, opener)
  {
    match FindIndex(m.workspaces, id)
    case None => Switched(false, m, [])
    case Some(t) =>
      var ws := SaveStep(m, snapshot, now);
      Switched(true, Manager(ws, Some(id)), ReplayLog(ws[t].tabs, opener))
  }
}
