/** Which handles a walk over a value finds, and in which order. */
module HandlePlaces {
  import opened Wrappers
  import opened Text
  import opened JsonText
  import opened JsonPaths
  import Handles

  type Handle = Handles.Handle

  /** The object's first member of the right name is this text. */
  ghost predicate NamesHandle(fields: seq<Field>, h: Handle) {
    var key := if h.Response? then "responseId" else "filePath";
    exists i :: 0 <= i < |fields| && fields[i] == Field(key, Str(h.Id())) && forall j :: 0 <= j < i ==> fields[j].key != key
  }

  /** An object that names the handle stands at the end of some path. */
  ghost predicate NamedAt(v: Json, path: Path, h: Handle) {
    At(v, path).Some? && At(v, path).value.Obj? && NamesHandle(At(v, path).value.fields, h)
  }

  lemma {:induction false} LookupFirst(fields: seq<Field>, key: string, s: string)
    ensures Handles.Lookup(fields, key) == Str(s)
      <==> exists i :: 0 <= i < |fields| && fields[i] == Field(key, Str(s)) && forall j :: 0 <= j < i ==> fields[j].key != key
  {
    if fields != [] {
      var rest := fields[1..];
      LookupFirst(rest, key, s);
      if fields[0].key != key {
        if i :| 0 <= i < |rest| && rest[i] == Field(key, Str(s)) && forall j :: 0 <= j < i ==> rest[j].key != key {
          assert fields[i + 1] == rest[i];
          assert forall j :: 0 < j < i + 1 ==> fields[j] == rest[j - 1];
        }
        if i :| 0 <= i < |fields| && fields[i] == Field(key, Str(s)) && forall j :: 0 <= j < i ==> fields[j].key != key {
          assert rest[i - 1] == fields[i];
          assert forall j :: 0 <= j < i - 1 ==> rest[j] == fields[j + 1];
        }
      } else if Handles.Lookup(fields, key) == Str(s) {
        assert fields[0] == Field(key, Str(s));
      }
    }
  }

  lemma OwnAreNamed(fields: seq<Field>, h: Handle)
    ensures h in Handles.OwnHandles(fields) <==> NamesHandle(fields, h)
  {
    hide Handles.Lookup;
    LookupFirst(fields, if h.Response? then "responseId" else "filePath", h.Id());
  }

  lemma {:induction false} ItemsHold(items: seq<Json>, h: Handle)
    ensures h in Handles.PreorderItems(items) <==> exists i :: 0 <= i < |items| && h in Handles.Preorder(items[i])
  {
    hide Handles.Preorder;
    if items != [] {
      ItemsHold(items[1..], h);
      assert forall i :: 0 <= i < |items| - 1 ==> items[1..][i] == items[i + 1];
      assert forall i :: 0 < i < |items| ==> items[i] == items[1..][i - 1];
    }
  }

  lemma {:induction false} FieldsHold(fields: seq<Field>, h: Handle)
    ensures h in Handles.PreorderFields(fields) <==> exists i :: 0 <= i < |fields| && h in Handles.Preorder(fields[i].value)
  {
    hide Handles.Preorder;
    if fields != [] {
      FieldsHold(fields[1..], h);
      assert forall i :: 0 <= i < |fields| - 1 ==> fields[1..][i] == fields[i + 1];
      assert forall i :: 0 < i < |fields| ==> fields[i] == fields[1..][i - 1];
    }
  }

  /** A handle named below a child is named below the value. */
  lemma NamedBelow(v: Json, step: PathStep, path: Path, h: Handle)
    requires Child(v, step).Some? && NamedAt(Child(v, step).value, path, h)
    ensures NamedAt(v, [step] + path, h)
  {
    assert ([step] + path)[1..] == path;
  }

  lemma {:induction false} FoundIsNamed(v: Json, h: Handle) returns (path: Path)
    requires h in Handles.Preorder(v)
    ensures NamedAt(v, path, h)
    decreases v
  {
    hide NamesHandle;
    if v.Arr? {
      ItemsHold(v.items, h);
      var i :| 0 <= i < |v.items| && h in Handles.Preorder(v.items[i]);
      path := FoundIsNamed(v.items[i], h);
      NamedBelow(v, Item(i), path, h);
      path := [Item(i)] + path;
    } else {
      OwnAreNamed(v.fields, h);
      FieldsHold(v.fields, h);
      if h in Handles.OwnHandles(v.fields) {
        path := [];
      } else {
        var i :| 0 <= i < |v.fields| && h in Handles.Preorder(v.fields[i].value);
        path := FoundIsNamed(v.fields[i].value, h);
        NamedBelow(v, Key(i, v.fields[i].key), path, h);
        path := [Key(i, v.fields[i].key)] + path;
      }
    }
  }

  lemma {:induction false} NamedIsFound(v: Json, path: Path, h: Handle)
    requires NamedAt(v, path, h)
    ensures h in Handles.Preorder(v)
    decreases |path|
  {
    hide NamesHandle;
    if path == [] {
      OwnAreNamed(v.fields, h);
    } else {
      NamedIsFound(Child(v, path[0]).value, path[1..], h);
      if v.Arr? { ItemsHold(v.items, h); } else { FieldsHold(v.fields, h); }
    }
  }

  /** The walk finds exactly the handles that some object in the value names. */
  lemma WalkFindsNamed(v: Json, h: Handle)
    ensures h in Handles.Preorder(v) <==> exists path: Path :: NamedAt(v, path, h)
  {
    hide Handles.Preorder, NamedAt;
    if h in Handles.Preorder(v) { var path := FoundIsNamed(v, h); }
    if path: Path :| NamedAt(v, path, h) { NamedIsFound(v, path, h); }
  }

  /** And in this order: the items of a list one after the other, an object's response handle
      before its file handle, and both before those of its members, one after the other. */
  lemma {:induction false} WalkOrder(a: seq<Json>, b: seq<Json>, v: Json, fields: seq<Field>)
    ensures Handles.Preorder(Arr(a + b)) == Handles.Preorder(Arr(a)) + Handles.Preorder(Arr(b))
    ensures Handles.Preorder(Arr([])) == [] && Handles.Preorder(Arr([v])) == Handles.Preorder(v)
    ensures Handles.Preorder(Obj(fields)) == Handles.OwnHandles(fields) + Handles.Preorder(Arr(Values(fields)))
    ensures |Handles.OwnHandles(fields)| == 2 ==> Handles.OwnHandles(fields)[0].Response? && Handles.OwnHandles(fields)[1].File?
  {
    ItemsConcat(a, b);
    assert [v][1..] == [];
    FieldsAsItems(fields);
    hide Handles.PreorderItems, Handles.PreorderFields;
  }

  lemma {:induction false} ItemsConcat(a: seq<Json>, b: seq<Json>)
    ensures Handles.PreorderItems(a + b) == Handles.PreorderItems(a) + Handles.PreorderItems(b)
  {
    hide Handles.Preorder;
    if a == [] {
      assert a + b == b;
    } else {
      assert (a + b)[1..] == a[1..] + b;
      ItemsConcat(a[1..], b);
      Associative(Handles.Preorder(a[0]), Handles.PreorderItems(a[1..]), Handles.PreorderItems(b));
    }
  }

  lemma {:induction false} FieldsAsItems(fields: seq<Field>)
    ensures Handles.PreorderFields(fields) == Handles.PreorderItems(Values(fields))
  {
    hide Handles.Preorder;
    if fields != [] {
      FieldsAsItems(fields[1..]);
      assert Values(fields)[1..] == Values(fields[1..]);
    }
  }
}
