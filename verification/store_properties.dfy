/** Properties relating the operations of the workspace store: the state
    invariant they keep, round-trips and inverses, idempotence, and what
    switching saves and replays. */
module StoreProperties {
  import opened Types
  import opened TabReplay
  import opened WorkspaceStore

  /** The pointer is absent or names an existing workspace. */
  ghost predicate PointerValid(m: Manager) {
    m.currentWorkspaceId.None? || HasId(m.workspaces, m.currentWorkspaceId.value)
  }

  /** No two workspaces share an id. */
  ghost predicate IdsUnique(ws: seq<Workspace>) {
    forall i, j :: 0 <= i < j < |ws| ==> ws[i].id != ws[j].id
  }

  ghost predicate Valid(m: Manager) {
    PointerValid(m) && IdsUnique(m.workspaces)
  }

  /** Two workspace lists hold the same ids at the same positions. */
  ghost predicate SameIds(ws: seq<Workspace>, ws': seq<Workspace>) {
    |ws| == |ws'| && forall i :: 0 <= i < |ws| ==> ws[i].id == ws'[i].id
  }

  lemma {:induction false} FindIndexSameIds(ws: seq<Workspace>, ws': seq<Workspace>, id: string)
    requires SameIds(ws, ws')
    ensures FindIndex(ws', id) == FindIndex(ws, id)
  {
    if FindIndex(ws, id).Some? {
      assert ws'[FindIndex(ws, id).value].id == id;
    }
  }

  /** Removing position `i` keeps every id other than the removed one. */
  lemma RemoveAtKeepsOtherIds(ws: seq<Workspace>, i: nat, id: string)
    requires i < |ws| && ws[i].id != id
    ensures HasId(ws[..i] + ws[i + 1..], id) <==> HasId(ws, id)
  {
    var ws' := ws[..i] + ws[i + 1..];
    if HasId(ws, id) {
      var k :| 0 <= k < |ws| && ws[k].id == id;
      if k < i {
        assert ws'[k] == ws[k];
      } else {
        assert ws'[k - 1] == ws[k];
      }
    }
    if HasId(ws', id) {
      var k :| 0 <= k < |ws'| && ws'[k].id == id;
      if k < i {
        assert ws[k] == ws'[k];
      } else {
        assert ws[k + 1] == ws'[k];
      }
    }
  }

  lemma RemoveAtKeepsUnique(ws: seq<Workspace>, i: nat)
    requires i < |ws| && IdsUnique(ws)
    ensures IdsUnique(ws[..i] + ws[i + 1..])
    ensures !HasId(ws[..i] + ws[i + 1..], ws[i].id)
  {
    var ws' := ws[..i] + ws[i + 1..];
    forall a, b | 0 <= a < b < |ws'|
      ensures ws'[a].id != ws'[b].id
    {
      var a' := if a < i then a else a + 1;
      var b' := if b < i then b else b + 1;
      assert ws'[a] == ws[a'] && ws'[b] == ws[b'];
    }
  }

  /** A fresh manager satisfies the invariant. */
  lemma ConstructedIsValid()
    ensures Valid(New(None))
  {
  }

  /** Creating with an unused id keeps the invariant. */
  lemma CreatePreservesValid(m: Manager, data: CreateWorkspaceData, freshId: string,
                             snapshot: seq<TabState>, now: int)
    requires Valid(m) && !HasId(m.workspaces, freshId)
    ensures Valid(CreateWorkspace(m, data, freshId, snapshot, now).state)
  {
    var r := CreateWorkspace(m, data, freshId, snapshot, now);
    var n := |m.workspaces|;
    assert r.state.workspaces[n].id == freshId;
    forall i, j | 0 <= i < j < |r.state.workspaces|
      ensures r.state.workspaces[i].id != r.state.workspaces[j].id
    {
      assert r.state.workspaces[i] == m.workspaces[i];
      if j < n {
        assert r.state.workspaces[j] == m.workspaces[j];
      }
    }
  }

  /** Updating keeps the invariant: no id changes. */
  lemma UpdatePreservesValid(m: Manager, data: UpdateWorkspaceData, now: int)
    requires Valid(m)
    ensures Valid(UpdateWorkspace(m, data, now).state)
  {
    var r := UpdateWorkspace(m, data, now);
    assert SameIds(m.workspaces, r.state.workspaces);
    if m.currentWorkspaceId.Some? {
      FindIndexSameIds(m.workspaces, r.state.workspaces, m.currentWorkspaceId.value);
    }
  }

  /** Deleting keeps the invariant; the pointer never dangles afterwards. */
  lemma DeletePreservesValid(m: Manager, id: string)
    requires Valid(m)
    ensures Valid(DeleteWorkspace(m, id).state)
  {
    var r := DeleteWorkspace(m, id);
    if r.value {
      var i := FindIndex(m.workspaces, id).value;
      assert r.state.workspaces == m.workspaces[..i] + m.workspaces[i + 1..];
      RemoveAtKeepsUnique(m.workspaces, i);
      if r.state.currentWorkspaceId.Some? {
        RemoveAtKeepsOtherIds(m.workspaces, i, m.currentWorkspaceId.value);
      }
    }
  }

  /** The save step changes no id, so the invariant survives saving. */
  lemma SaveStepSameIds(m: Manager, snapshot: seq<TabState>, now: int)
    ensures SameIds(m.workspaces, SaveStep(m, snapshot, now))
  {
  }

  lemma SavePreservesValid(m: Manager, snapshot: seq<TabState>, now: int)
    requires Valid(m)
    ensures Valid(SaveCurrentWorkspace(m, snapshot, now).state)
  {
    var r := SaveCurrentWorkspace(m, snapshot, now);
    SaveStepSameIds(m, snapshot, now);
    if m.currentWorkspaceId.Some? {
      FindIndexSameIds(m.workspaces, r.state.workspaces, m.currentWorkspaceId.value);
    }
  }

  /** Switching keeps the invariant: the pointer lands on an existing id. */
  lemma SwitchPreservesValid(m: Manager, id: string, snapshot: seq<TabState>, now: int, opener: Opener)
    requires Valid(m)
    ensures Valid(SwitchToWorkspace(m, id, snapshot, now, opener).state)
  {
    var r := SwitchToWorkspace(m, id, snapshot, now, opener);
    if r.ok {
      SaveStepSameIds(m, snapshot, now);
      FindIndexSameIds(m.workspaces, r.state.workspaces, id);
    }
  }

  /** After creating, the new workspace is the current one (generated ids
      are never empty). */
  lemma CreateMakesCurrent(m: Manager, data: CreateWorkspaceData, freshId: string,
                           snapshot: seq<TabState>, now: int)
    requires freshId != "" && !HasId(m.workspaces, freshId)
    ensures var r := CreateWorkspace(m, data, freshId, snapshot, now);
            GetCurrentWorkspace(r.state) == Some(r.value)
  {
    var r := CreateWorkspace(m, data, freshId, snapshot, now);
    var n := |m.workspaces|;
    var c := CurrentIndex(r.state);
    assert r.state.workspaces[n].id == freshId;
    assert c.Some?;
  }

  /** In this revision a newly created workspace starts with no tabs. */
  lemma CreateStartsEmpty(m: Manager, data: CreateWorkspaceData, freshId: string,
                          now: int)
    ensures CreateWorkspace(m, data, freshId, GetCurrentTabs(), now).value.tabs == []
  {
  }

  /** Deleting the workspace just created restores the list and leaves no
      current workspace. */
  lemma CreateThenDelete(m: Manager, data: CreateWorkspaceData, freshId: string,
                         snapshot: seq<TabState>, now: int)
    requires !HasId(m.workspaces, freshId)
    ensures var s := CreateWorkspace(m, data, freshId, snapshot, now).state;
            DeleteWorkspace(s, freshId) == Step(true, Manager(m.workspaces, None))
  {
    var s := CreateWorkspace(m, data, freshId, snapshot, now).state;
    var n := |m.workspaces|;
    assert s.workspaces[n].id == freshId;
    assert s.workspaces[..n] + s.workspaces[n + 1..] == m.workspaces;
  }

  /** With unique ids, deleting removes exactly the given id. */
  lemma DeleteRemovesExactlyId(m: Manager, id: string, other: string)
    requires IdsUnique(m.workspaces) && other != id
    ensures !HasId(DeleteWorkspace(m, id).state.workspaces, id)
    ensures HasId(DeleteWorkspace(m, id).state.workspaces, other) <==> HasId(m.workspaces, other)
  {
    var r := DeleteWorkspace(m, id);
    if r.value {
      var i := FindIndex(m.workspaces, id).value;
      assert r.state.workspaces == m.workspaces[..i] + m.workspaces[i + 1..];
      RemoveAtKeepsUnique(m.workspaces, i);
      RemoveAtKeepsOtherIds(m.workspaces, i, other);
    }
  }

  /** Updating twice with the same arguments equals updating once. */
  lemma UpdateIdempotent(m: Manager, data: UpdateWorkspaceData, now: int)
    ensures var s := UpdateWorkspace(m, data, now).state;
            UpdateWorkspace(s, data, now) == UpdateWorkspace(m, data, now)
  {
    var s := UpdateWorkspace(m, data, now).state;
    if HasId(m.workspaces, data.id) {
      assert SameIds(m.workspaces, s.workspaces);
      FindIndexSameIds(m.workspaces, s.workspaces, data.id);
    }
  }

  /** Saving twice with the same snapshot and clock equals saving once. */
  lemma SaveIdempotent(m: Manager, snapshot: seq<TabState>, now: int)
    ensures var s := SaveCurrentWorkspace(m, snapshot, now).state;
            SaveCurrentWorkspace(s, snapshot, now) == SaveCurrentWorkspace(m, snapshot, now)
  {
    var s := SaveCurrentWorkspace(m, snapshot, now).state;
    SaveStepSameIds(m, snapshot, now);
    if m.currentWorkspaceId.Some? {
      FindIndexSameIds(m.workspaces, s.workspaces, m.currentWorkspaceId.value);
    }
  }

  /** A successful switch is the save step followed by moving the pointer. */
  lemma SwitchIsSaveThenMove(m: Manager, id: string, snapshot: seq<TabState>, now: int, opener: Opener)
    requires HasId(m.workspaces, id)
    ensures SwitchToWorkspace(m, id, snapshot, now, opener).state
            == SaveCurrentWorkspace(m, snapshot, now).state.(currentWorkspaceId := Some(id))
  {
  }

  /** Switching to a different workspace replays its tabs as stored before
      the switch. */
  lemma SwitchReplaysStoredTabs(m: Manager, id: string, snapshot: seq<TabState>, now: int, opener: Opener)
    requires HasId(m.workspaces, id)
    requires CurrentIndex(m) != FindIndex(m.workspaces, id)
    ensures SwitchToWorkspace(m, id, snapshot, now, opener).replay
            == ReplayLog(m.workspaces[FindIndex(m.workspaces, id).value].tabs, opener)
  {
  }

  /** Switching to the workspace that is already current replays the
      snapshot just captured, not the tabs stored before. */
  lemma SwitchToCurrentReplaysSnapshot(m: Manager, snapshot: seq<TabState>, now: int, opener: Opener)
    requires CurrentIndex(m).Some?
    ensures var r := SwitchToWorkspace(m, m.currentWorkspaceId.value, snapshot, now, opener);
            r.ok && r.replay == ReplayLog(snapshot, opener)
  {
  }

  /** After a successful switch to a non-empty id, the target is the current
      workspace. */
  lemma SwitchMakesCurrent(m: Manager, id: string, snapshot: seq<TabState>, now: int, opener: Opener)
    requires id != "" && HasId(m.workspaces, id)
    ensures var r := SwitchToWorkspace(m, id, snapshot, now, opener);
            GetCurrentWorkspace(r.state) == Some(r.state.workspaces[FindIndex(m.workspaces, id).value])
  {
    var r := SwitchToWorkspace(m, id, snapshot, now, opener);
    SaveStepSameIds(m, snapshot, now);
    FindIndexSameIds(m.workspaces, r.state.workspaces, id);
  }

  /** Exporting then importing the state gives it back unchanged. */
  lemma SetDataGetData(m: Manager)
    ensures SetData(GetData(m)) == m
  {
  }

  /** Importing then exporting gives back the data, except that a missing
      workspace list comes back empty. */
  lemma GetDataSetData(d: StoredData)
    ensures GetData(SetData(d)) == d <==> d.workspaces.Some?
    ensures d.workspaces.None? ==> GetData(SetData(d)).workspaces == Some([])
  {
  }

  /** Normalisation is idempotent. */
  lemma SetDataIdempotent(d: StoredData)
    ensures SetData(GetData(SetData(d))) == SetData(d)
  {
  }

  /** getWorkspaces after any load never yields null. */
  lemma GetWorkspacesAfterLoad(init: Option<StoredData>)
    ensures init.Some? && init.value.workspaces.Some? ==> GetWorkspaces(New(init)) == init.value.workspaces.value
    ensures init.None? || init.value.workspaces.None? ==> GetWorkspaces(New(init)) == []
  {
  }

  /** setData does not check the pointer: loaded state may break the invariant. */
  lemma SetDataAcceptsDanglingPointer()
    ensures !PointerValid(SetData(StoredData(None, Some("w"))))
    ensures GetCurrentWorkspace(SetData(StoredData(None, Some("w")))).None?
  {
  }

  /** Two creates and a switch back, from an empty manager: every workspace
      keeps an empty tab list and the pointer ends on the first one. */
  lemma CreateCreateSwitch(r: string, w: string, t1: int, t2: int, t3: int, opener: Opener)
    requires r != "" && w != "" && r != w
    ensures var s0 := New(None);
            var s1 := CreateWorkspace(s0, CreateWorkspaceData("Research", Some("")), r, GetCurrentTabs(), t1).state;
            var s2 := CreateWorkspace(s1, CreateWorkspaceData("Writing", Some("")), w, GetCurrentTabs(), t2).state;
            var sw := SwitchToWorkspace(s2, r, GetCurrentTabs(), t3, opener);
            && s1.currentWorkspaceId == Some(r)
            && s2.currentWorkspaceId == Some(w)
            && sw.ok && sw.state.currentWorkspaceId == Some(r)
            && |sw.state.workspaces| == 2
            && sw.state.workspaces[0].tabs == [] && sw.state.workspaces[1].tabs == []
            && sw.state.workspaces[1].updatedAt == t3
            && sw.replay == []
  {
    var s0 := New(None);
    var s1 := CreateWorkspace(s0, CreateWorkspaceData("Research", Some("")), r, GetCurrentTabs(), t1).state;
    var s2 := CreateWorkspace(s1, CreateWorkspaceData("Writing", Some("")), w, GetCurrentTabs(), t2).state;
    assert s2.workspaces[0].id == r && s2.workspaces[1].id == w;
    assert FindIndex(s2.workspaces, r) == Some(0);
    assert FindIndex(s2.workspaces, w) == Some(1);
  }

  /** With two workspaces sharing the current id, getCurrentWorkspace yields
      the first of them, as `find` does. */
  lemma CurrentIsFirstOfDuplicates(a: Workspace, b: Workspace)
    requires a.id == "x" && b.id == "x"
    ensures GetCurrentWorkspace(Manager([a, b], Some("x"))) == Some(a)
  {
  }
}
