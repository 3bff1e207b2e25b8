# Workspace manager of the SiYuan workspace plugin, in Dafny

This project models `WorkspaceManagerService`, the state machine behind the
SiYuan workspace plugin. The service keeps a list of named workspaces. Each
workspace holds a stored list of tabs. An optional "current workspace" pointer
says which one is active.

The service is modelled as pure state transitions over the record
`Manager(workspaces, currentWorkspaceId)`:

- `Types` (types.dfy) holds the tab, workspace, persisted-record and argument
  shapes. The untyped `data: any` of a tab is a JSON-like `Value`.
- `TabReplay` (tab_replay.dfy) holds the per-kind dispatch of `openTab` and the
  best-effort `restoreTabs` loop. That loop is a method, and a recursive
  reference definition `ReplayLog` describes what it does.
- `WorkspaceStore` (workspace_store.dfy) holds the constructor, `setData`,
  `getData`, `getWorkspaces`, `getCurrentWorkspace` and the operations create,
  update, delete, save-current and switch.
- `StoreProperties` (store_properties.dfy) holds the cross-operation facts:
  - the invariant "the pointer is absent or names a workspace, and ids are unique";
  - round-trips of `getData`/`setData`;
  - create followed by delete is the identity on the list;
  - update and save are idempotent;
  - switch is "save, then move the pointer", and replays what the save step left.

Host interactions are parameters:

- the clock (`Date.now()`) is `now`;
- the id generator is `freshId`;
- the tab capture (`getCurrentTabs`) is `snapshot`;
- the host's `openTab` is an `Opener` oracle. It says, per replay position and
  request, whether the call succeeds.

In this revision `getCurrentTabs` always yields the empty list, whatever the
host reports. `GetCurrentTabs` models that. The lemmas `CreateStartsEmpty` and
`CreateCreateSwitch` use it for `snapshot`.

Some details the model keeps from the code:

- Lookups return the first match, because `find` and `findIndex` do. Ids may
  repeat in data loaded through `setData`, so every operation is stated by
  position (`FindIndex`).
- `getCurrentWorkspace`, `saveCurrentWorkspace` and the save step of
  `switchToWorkspace` test the pointer with JavaScript truthiness, so an empty
  string counts as "no current workspace" (`Truthy`). `deleteWorkspace`
  compares the pointer with `===`, and the model does the same.
- `openTab` reads `tab.data.id` for a document tab and `tab.data.keyword` for a
  search tab. That read throws when `data` is `undefined` or `null`, and
  `restoreTabs` catches it like a host failure. The other six kinds pass
  `data` through unchanged.

Behaviour the manager does not have:

- `createWorkspace` does no name check. Its callers trim the name and reject
  empty ones (src/index.ts:366-372).
- `createWorkspace` closes no tabs. It stores whatever `getCurrentTabs`
  returns as the new workspace's tabs (src/libs/workspace-manager.ts:56).
- `restoreTabs` only opens tabs; it closes none
  (src/libs/workspace-manager.ts:170-182).
- Each stored tab leads to at most one host call. A document or search tab
  whose data is `undefined` or `null` leads to none, because reading
  `tab.data.id` or `tab.data.keyword` throws first
  (src/libs/workspace-manager.ts:192, 198).

## Model

| member | source | states |
|---|---|---|
| WorkspaceStore.FindIndex | src/libs/workspace-manager.ts:86-87 | The first position whose workspace has the id; none exactly when no workspace has it. |
| WorkspaceStore.CurrentIndex | src/libs/workspace-manager.ts:38-40 | Position of the current workspace; none exactly when the pointer is absent, empty, or names no workspace. |
| WorkspaceStore.GetCurrentWorkspace | src/libs/workspace-manager.ts:38-41 | None in exactly those cases; otherwise the first stored workspace whose id equals the pointer. |
| WorkspaceStore.SetData | src/libs/workspace-manager.ts:264-273 | A missing workspace list becomes empty; the list and pointer are otherwise kept as given. |
| WorkspaceStore.New | src/libs/workspace-manager.ts:12-25 | No initial data gives an empty manager with no pointer; given data is normalised as setData does. |
| WorkspaceStore.GetData | src/libs/workspace-manager.ts:257-259 | The exported record always has a workspace list, and loading it back with setData gives the same state. |
| WorkspaceStore.GetWorkspaces | src/libs/workspace-manager.ts:31-33 | The list returned is the one getData exports; it is never null. |
| WorkspaceStore.GetCurrentTabs | src/libs/workspace-manager.ts:144-165 | The captured snapshot is always empty; the host's editor list is only logged. |
| StoreProperties.CurrentIsFirstOfDuplicates | src/libs/workspace-manager.ts:38-41 | With two workspaces sharing the current id, getCurrentWorkspace yields the first. |
| WorkspaceStore.CreateWorkspace | src/libs/workspace-manager.ts:46-63 | Appends exactly one workspace, with earlier entries unchanged. It has the given id, name, description and captured tabs, and equal timestamps. The pointer moves to it. |
| WorkspaceStore.UpdateWorkspace | src/libs/workspace-manager.ts:69-78 | Unknown id: none, state unchanged. Otherwise only present fields are overwritten, updatedAt is set, and id, tabs, createdAt, other workspaces and the pointer stay the same. |
| WorkspaceStore.DeleteWorkspace | src/libs/workspace-manager.ts:83-97 | True exactly when the id exists. Then the first entry with it is removed and the rest keep their order. The pointer is cleared exactly when it equals the id. Otherwise nothing changes. |
| WorkspaceStore.SaveCurrentWorkspace | src/libs/workspace-manager.ts:129-139 | False and unchanged when there is no usable pointer. Otherwise only the current workspace's tabs and updatedAt change. |
| WorkspaceStore.SwitchToWorkspace | src/libs/workspace-manager.ts:102-124 | Unknown target: false, no change, nothing replayed. Otherwise the current workspace is saved, currentWorkspaceId becomes the target id, and replay runs over the target's tabs as read after the save. |
| TabReplay.OpenTab | src/libs/workspace-manager.ts:187-237 | Every kind yields a request of the same kind. A document passes data.id and a search passes data.keyword; both throw on undefined or null data. The other kinds pass data unchanged. |
| TabReplay.ReplayLog | src/libs/workspace-manager.ts:170-182 | One attempt per stored tab, in order. Each attempt builds that tab's request and succeeds exactly when the request was built and the host accepted it. |
| TabReplay.RestoreTabs | src/libs/workspace-manager.ts:170-182 | The sequential try/catch loop produces exactly the reference replay. |
| TabReplay.ReplayPrefix | src/libs/workspace-manager.ts:175-181 | Replaying a prefix gives a prefix of the replay: later tabs never affect earlier attempts. |
| TabReplay.FailureIsIsolated | src/libs/workspace-manager.ts:175-181 | A host failure at one position changes only that position's attempt. |
| TabReplay.ReplayAppend | src/libs/workspace-manager.ts:175-181 | Replaying a concatenation replays the first part, then the second part at shifted positions. |
| TabReplay.ThirdOfFourFails | src/libs/workspace-manager.ts:175-181 | With four tabs and a host failing on the third, the other three still open. |
| StoreProperties.ConstructedIsValid | src/libs/workspace-manager.ts:12-16 | A fresh manager satisfies the pointer and unique-id invariant. |
| StoreProperties.CreatePreservesValid | src/libs/workspace-manager.ts:46-63 | Creating with an unused id keeps the invariant. |
| StoreProperties.UpdatePreservesValid | src/libs/workspace-manager.ts:69-78 | Updating keeps the invariant. |
| StoreProperties.DeletePreservesValid | src/libs/workspace-manager.ts:83-97 | Deleting keeps the invariant: the pointer never dangles afterwards. |
| StoreProperties.SavePreservesValid | src/libs/workspace-manager.ts:129-139 | Saving keeps the invariant. |
| StoreProperties.SwitchPreservesValid | src/libs/workspace-manager.ts:102-124 | Switching keeps the invariant. |
| StoreProperties.SaveStepSameIds | src/libs/workspace-manager.ts:111-114 | The save step changes no id and no position. |
| StoreProperties.RemoveAtKeepsOtherIds | src/libs/workspace-manager.ts:89 | Splicing out one entry keeps every other id. |
| StoreProperties.RemoveAtKeepsUnique | src/libs/workspace-manager.ts:89 | Splicing out one entry keeps ids unique and drops the removed id. |
| StoreProperties.CreateMakesCurrent | src/libs/workspace-manager.ts:53-62 | With a non-empty unused id, the created workspace is what getCurrentWorkspace then returns. |
| StoreProperties.CreateStartsEmpty | src/libs/workspace-manager.ts:56 | With this revision's capture, a new workspace has no tabs. |
| StoreProperties.CreateThenDelete | src/libs/workspace-manager.ts:61-62 | Deleting the workspace just created succeeds, restores the earlier list and leaves no pointer. |
| StoreProperties.DeleteRemovesExactlyId | src/libs/workspace-manager.ts:86-89 | With unique ids, the deleted id is gone and every other id is present exactly as before. |
| StoreProperties.UpdateIdempotent | src/libs/workspace-manager.ts:69-78 | Updating twice with the same arguments and clock equals updating once. |
| StoreProperties.SaveIdempotent | src/libs/workspace-manager.ts:129-139 | Saving twice with the same snapshot and clock equals saving once. |
| StoreProperties.SwitchIsSaveThenMove | src/libs/workspace-manager.ts:108-118 | A successful switch leaves the state of saveCurrentWorkspace with the pointer moved to the target. |
| StoreProperties.SwitchReplaysStoredTabs | src/libs/workspace-manager.ts:105-121 | Switching to a workspace other than the current one replays its tabs as stored before the switch. |
| StoreProperties.SwitchToCurrentReplaysSnapshot | src/libs/workspace-manager.ts:105-121 | Switching to the current workspace succeeds and replays the snapshot just captured. |
| StoreProperties.SwitchMakesCurrent | src/libs/workspace-manager.ts:118 | After switching to a non-empty id, getCurrentWorkspace returns the target. |
| StoreProperties.SetDataGetData | src/libs/workspace-manager.ts:257-273 | Exporting and re-importing gives back the same state. |
| StoreProperties.GetDataSetData | src/libs/workspace-manager.ts:257-273 | Importing and exporting gives back the data exactly when it had a workspace list; a missing list comes back empty. |
| StoreProperties.SetDataIdempotent | src/libs/workspace-manager.ts:264-273 | Normalisation applied twice equals normalisation once. |
| StoreProperties.GetWorkspacesAfterLoad | src/libs/workspace-manager.ts:31-33 | After construction the workspace list is the loaded one, or empty; never null. |
| StoreProperties.SetDataAcceptsDanglingPointer | src/libs/workspace-manager.ts:264-273 | setData accepts a pointer that names no workspace; getCurrentWorkspace then yields none. |
| StoreProperties.CreateCreateSwitch | src/libs/workspace-manager.ts:46-124 | Two creates and a switch back: the pointer follows each step, every workspace keeps empty tabs, the saved one gets the new timestamp, nothing is replayed. |

## Left out

- The plugin shell (src/index.ts, src/index-simple.ts) is left out: lifecycle, menus, dialogs, commands and persistence I/O. Two checks there belong to the callers: the trimmed non-empty name (src/index.ts:366-372) and the load-time shape check (src/index.ts:50-62).
- `getCurrentWorkspaceId` is called by the shell but not defined in the manager, so it is not modelled.
- Layout introspection and teardown do not exist in this code, so they are not modelled. `getCurrentTabs` calls `getAllEditor()` only to log the result, so that call is not modelled.
- Async/await is modelled as straight-line sequential code. Console logging, the unused `storageKey` field and the `app` handle passed to `openTab` have no modelled effect.
- `generateId` is replaced by the `freshId` parameter. Only the lemmas that need it assume it is unused and non-empty; the source's random suffix only makes a clash unlikely.
- CreateWorkspace: reads the clock once for both timestamps. The source calls `Date.now()` twice, so the two readings could differ by a tick.
- The `!this.data.workspaces` guards in create, delete, switch, save and getCurrentWorkspace cannot fire on the normalised state, so they are absent. So is the TypeError `updateWorkspace` would raise on a null list. Such a state needs outside code to null the list after `setData`.
- Tab `type` strings outside the eight kinds are not modelled; the type declaration closes the set. In the source such a tab would match no case and silently open nothing.
- `Value` numbers are integers; floating point payloads are not modelled.
- The host oracle decides success from the replay position and the request only. Host state beyond that is not modelled.
