/** What a preview shows, place by place: every path in it is a path of the value, and what
    stands at its end tells what stands there in the value. */
module CompactionPaths {
  import opened Wrappers
  import opened Numerals
  import opened JsonText
  import opened JsonPaths
  import opened Compaction

  function Min(a: nat, b: int): int {
    if a < b then a else b
  }

  /** A list above depth zero keeps its first items, each compacted. */
  lemma PreviewOfList(items: seq<Json>, lim: Limits)
    requires lim.Ok() && lim.maxDepth > 0
    ensures var p := Preview(Arr(items), lim);
      && p.Arr? && |p.items| == Min(|items|, lim.maxItems)
      && forall i :: 0 <= i < |p.items| ==> p.items[i] == Preview(items[i], lim.(maxDepth := lim.maxDepth - 1))
  {
    PreviewOfContainer(Arr(items), lim);
  }

  /** A dict above depth zero keeps its first keys, each with its own value compacted. */
  lemma PreviewOfDict(fields: seq<Field>, lim: Limits)
    requires lim.Ok() && lim.maxDepth > 0
    ensures var p := Preview(Obj(fields), lim);
      && p.Obj? && |p.fields| == Min(|fields|, lim.maxItems)
      && forall i :: 0 <= i < |p.fields| ==>
           p.fields[i].key == fields[i].key && p.fields[i].value == Preview(fields[i].value, lim.(maxDepth := lim.maxDepth - 1))
  {
    PreviewOfContainer(Obj(fields), lim);
  }

  /** A text that names a kind of container and reads back the number of its children. */
  ghost predicate Names(text: string, opening: string, count: nat) {
    exists digits :: AllDigits(digits) && digits != "" && text == opening + digits + ">" && ParseDecimal(digits) == count
  }

  /** What the preview may show where the value has this, some levels above the depth limit. */
  ghost predicate ShownAs(shown: Json, v: Json, lim: Limits, levelsLeft: int) {
    match v
    case Str(s) =>
      && shown.Str?
      && (if |s| <= lim.maxChars then shown.s == s
          else exists n :: n == (if lim.maxChars > 4 then lim.maxChars - 3 else 1) && n < |s| && shown.s == s[..n] + "...")
    case Arr(items) =>
      if levelsLeft == 0 then shown.Str? && Names(shown.s, "<list len=", |items|)
      else shown.Arr? && |shown.items| == Min(|items|, lim.maxItems)
    case Obj(fields) =>
      if levelsLeft == 0 then shown.Str? && Names(shown.s, "<dict keys=", |fields|)
      else shown.Obj? && |shown.fields| == Min(|fields|, lim.maxItems)
    case _ => shown == v
  }

  lemma PlaceholderNames(v: Json)
    requires v.IsContainer()
    ensures v.Arr? ==> Names(Placeholder(v), "<list len=", |v.items|)
    ensures v.Obj? ==> Names(Placeholder(v), "<dict keys=", |v.fields|)
  {
    var digits := Decimal(|Kids(v)|);
    ParseOfDecimal(|Kids(v)|);
    hide Decimal, ParseDecimal, DigitCount;
    assert AllDigits(digits) && digits != "";
  }

  lemma TopShownAs(v: Json, lim: Limits)
    requires lim.Ok()
    ensures ShownAs(Preview(v, lim), v, lim, lim.maxDepth)
  {
    hide Names, Placeholder;
    match v
    case Str(s) =>
    case Arr(items) => if lim.maxDepth == 0 { PlaceholderNames(v); } else { PreviewOfList(items, lim); }
    case Obj(fields) => if lim.maxDepth == 0 { PlaceholderNames(v); } else { PreviewOfDict(fields, lim); }
    case _ =>
  }

  /** A step into a preview is a step into the value, and leads to the preview of what is there. */
  lemma StepIntoPreview(v: Json, lim: Limits, step: PathStep)
    requires lim.Ok() && Child(Preview(v, lim), step).Some?
    ensures lim.maxDepth > 0 && Child(v, step).Some?
    ensures Child(Preview(v, lim), step).value == Preview(Child(v, step).value, lim.(maxDepth := lim.maxDepth - 1))
  {
    if v.Arr? && lim.maxDepth > 0 {
      PreviewOfList(v.items, lim);
    } else if v.Obj? && lim.maxDepth > 0 {
      PreviewOfDict(v.fields, lim);
    }
  }

  /** Every path of list positions and keys in a preview is a path of the value, no longer than
      the depth limit. At its end stands the same scalar, a string cut to a prefix and three
      dots, a container of the same kind cut to its first children, or, at the depth limit, a
      placeholder that names the kind and the number of the children found there. */
  lemma {:induction false} PathsOfPreview(v: Json, lim: Limits, path: Path)
    requires lim.Ok() && At(Preview(v, lim), path).Some?
    ensures |path| <= lim.maxDepth && At(v, path).Some?
    ensures ShownAs(At(Preview(v, lim), path).value, At(v, path).value, lim, lim.maxDepth - |path|)
    decreases |path|
  {
    hide Preview, Names;
    if path == [] {
      TopShownAs(v, lim);
    } else {
      StepIntoPreview(v, lim, path[0]);
      var inner := lim.(maxDepth := lim.maxDepth - 1);
      PathsOfPreview(Child(v, path[0]).value, inner, path[1..]);
    }
  }

  /** And conversely: a path of the value is kept if it is not longer than the depth limit and
      takes only the first children of each container. */
  lemma {:induction false} PathsKept(v: Json, lim: Limits, path: Path)
    requires lim.Ok() && |path| <= lim.maxDepth && At(v, path).Some?
    requires forall step <- path :: step.i < lim.maxItems
    ensures At(Preview(v, lim), path).Some?
    decreases |path|
  {
    if path != [] {
      assert path[0] in path;
      if v.Arr? {
        PreviewOfList(v.items, lim);
      } else {
        PreviewOfDict(v.fields, lim);
      }
      hide Preview;
      PathsKept(Child(v, path[0]).value, lim.(maxDepth := lim.maxDepth - 1), path[1..]);
    }
  }

  /** The depthLimited statistic: some container reached by the preview stands at the depth limit. */
  lemma {:induction false} DepthLimitedMeans(v: Json, lim: Limits)
    requires lim.Ok()
    ensures DepthLimited(v, lim) <==> exists path: Path :: (
      |path| == lim.maxDepth && At(Preview(v, lim), path).Some? && At(v, path).Some? && At(v, path).value.IsContainer())
    decreases lim.maxDepth
  {
    hide Preview;
    if DepthLimited(v, lim) {
      var path := DeepPath(v, lim);
    }
    if path: Path :| |path| == lim.maxDepth && At(Preview(v, lim), path).Some? && At(v, path).Some? && At(v, path).value.IsContainer() {
      DeepPathLimits(v, lim, path);
    }
  }

  lemma {:induction false} DeepPath(v: Json, lim: Limits) returns (path: Path)
    requires lim.Ok() && DepthLimited(v, lim)
    ensures |path| == lim.maxDepth && At(Preview(v, lim), path).Some? && At(v, path).Some? && At(v, path).value.IsContainer()
    decreases lim.maxDepth
  {
    if lim.maxDepth == 0 {
      path := [];
    } else {
      var i :| 0 <= i < lim.Shown(|Kids(v)|) && DepthLimited(Kids(v)[i], lim.Inner());
      var rest := DeepPath(Kids(v)[i], lim.Inner());
      var step;
      if v.Arr? {
        PreviewOfList(v.items, lim);
        step := Item(i);
      } else {
        PreviewOfDict(v.fields, lim);
        step := Key(i, v.fields[i].key);
      }
      hide Preview;
      path := [step] + rest;
      assert path[1..] == rest;
    }
  }

  lemma {:induction false} DeepPathLimits(v: Json, lim: Limits, path: Path)
    requires lim.Ok() && |path| == lim.maxDepth && At(Preview(v, lim), path).Some?
    requires At(v, path).Some? && At(v, path).value.IsContainer()
    ensures DepthLimited(v, lim)
    decreases lim.maxDepth
  {
    if path != [] {
      StepIntoPreview(v, lim, path[0]);
      var i := path[0].i;
      if v.Arr? {
        PreviewOfList(v.items, lim);
      } else {
        PreviewOfDict(v.fields, lim);
      }
      hide Preview;
      assert Kids(v)[i] == Child(v, path[0]).value && i < lim.Shown(|Kids(v)|);
      DeepPathLimits(Kids(v)[i], lim.Inner(), path[1..]);
    }
  }
}
