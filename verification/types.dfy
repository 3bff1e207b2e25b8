/** The data shapes of the workspace plugin: tabs, workspaces, the persisted
    manager record and the argument records of create and update. */
module Types {

  /** Optional values: a TypeScript `?:` field, or `T | undefined`. */
  datatype Option<T> = None | Some(value: T) {

    /** The carried value, or `default` when absent. */
    function GetOr(default: T): T {
      match this
      case Some(v) => v
      case None => default
    }
  }

  /** The untyped `data: any` payload a tab carries, as a JSON-like value
      (numbers are restricted to integers). */
  datatype Value =
    | Undefined
    | Null
    | Bool(b: bool)
    | Num(n: int)
    | Str(s: string)
    | Arr(items: seq<Value>)
    | Obj(fields: map<string, Value>)

  /** The property read `v.key`. Reading a property of `undefined` or `null`
      raises a TypeError (None); any other value yields the property, or
      `undefined` when it has none. */
  function Member(v: Value, key: string): Option<Value> {
    match v
    case Undefined => None
    case Null => None
    case Obj(fields) => Some(if key in fields then fields[key] else Undefined)
    case _ => Some(Undefined)
  }

  /** The closed set of tab kinds. */
  datatype TabKind = Doc | Search | Graph | Outline | Backlink | File | Asset | Custom

  /** One stored tab. */
  datatype TabState = TabState(
    id: string,
    kind: TabKind,
    data: Value,
    title: string,
    icon: Option<string>)

  /** One named workspace; timestamps are milliseconds since the epoch. */
  datatype Workspace = Workspace(
    id: string,
    name: string,
    description: Option<string>,
    tabs: seq<TabState>,
    createdAt: int,
    updatedAt: int)

  /** The manager record as it arrives from persistence: the `workspaces`
      field may be missing or null. */
  datatype StoredData = StoredData(
    workspaces: Option<seq<Workspace>>,
    currentWorkspaceId: Option<string>)

  /** Argument of createWorkspace. */
  datatype CreateWorkspaceData = CreateWorkspaceData(
    name: string,
    description: Option<string>)

  /** Argument of updateWorkspace: absent fields are left untouched. */
  datatype UpdateWorkspaceData = UpdateWorkspaceData(
    id: string,
    name: Option<string>,
    description: Option<string>)
}
