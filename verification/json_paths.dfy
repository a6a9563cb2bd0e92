/** Places inside a JSON value. */
module JsonPaths {
  import opened Wrappers
  import opened JsonText

  /** A list position, or a dict key with the position at which it stands. */
  datatype PathStep = Item(i: nat) | Key(i: nat, key: string)

  type Path = seq<PathStep>

  /** One step down, if there is such a child. */
  function Child(v: Json, step: PathStep): Option<Json> {
    match step
    case Item(i) => if v.Arr? && i < |v.items| then Some(v.items[i]) else None
    case Key(i, key) => if v.Obj? && i < |v.fields| && v.fields[i].key == key then Some(v.fields[i].value) else None
  }

  /** What stands at the end of a path. */
  function At(v: Json, path: Path): Option<Json> {
    if path == [] then Some(v)
    else
      match Child(v, path[0])
      case None => None
      case Some(child) => At(child, path[1..])
  }
}
