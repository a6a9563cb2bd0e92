/** The preview compactor behind fit_output: strings, lists, dicts and nesting are cut to
    limits, and the omissions are counted. */
module Compaction {
  import opened Numerals
  import opened JsonText

  datatype Limits = Limits(maxChars: int, maxItems: int, maxDepth: int) {
    /** What the recursion works with: the depth counts down to zero. */
    predicate Ok() {
      maxChars >= 1 && maxItems >= 1 && maxDepth >= 0
    }

    function Inner(): Limits {
      this.(maxDepth := maxDepth - 1)
    }

    /** How many children of a container are looked at. */
    function Shown(count: nat): (k: nat)
      ensures k <= count
    {
      if maxItems < 0 then 0 else if count < maxItems then count else maxItems
    }
  }

  datatype Stats = Stats(truncated: bool, omittedItems: nat, omittedKeys: nat, depthLimited: bool)

  /** List items or dict keys: the two things that are counted. */
  datatype Unit = Items | Keys

  function Max(a: int, b: int): int {
    if a < b then b else a
  }

  /** n children of the container v count as list items or as dict keys. */
  function CountAs(v: Json, n: nat, unit: Unit): nat {
    if v.Arr? == unit.Items? then n else 0
  }

  function Placeholder(v: Json): string {
    if v.Arr? then "<list len=" + Decimal(|Kids(v)|) + ">" else "<dict keys=" + Decimal(|Kids(v)|) + ">"
  }

  function CutText(s: string, maxChars: int): string
    requires |s| > maxChars >= 1
  {
    s[..Max(1, maxChars - 3)] + "..."
  }

  // --- what the preview and each statistic are, child by child ---

  function Preview(v: Json, lim: Limits): Json
    requires lim.Ok()
    decreases lim.maxDepth
  {
    if v.Str? && |v.s| > lim.maxChars then Str(CutText(v.s, lim.maxChars))
    else if !v.IsContainer() then v
    else if lim.maxDepth == 0 then Str(Placeholder(v))
    else
      WithKids(v, seq(lim.Shown(|Kids(v)|), i requires 0 <= i < lim.Shown(|Kids(v)|) => Preview(Kids(v)[i], lim.Inner())))
  }

  predicate Truncated(v: Json, lim: Limits)
    requires lim.Ok()
    decreases lim.maxDepth
  {
    if !v.IsContainer() then v.Str? && |v.s| > lim.maxChars
    else
      || lim.maxDepth == 0
      || |Kids(v)| > lim.maxItems
      || exists i :: 0 <= i < lim.Shown(|Kids(v)|) && Truncated(Kids(v)[i], lim.Inner())
  }

  predicate DepthLimited(v: Json, lim: Limits)
    requires lim.Ok()
    decreases lim.maxDepth
  {
    v.IsContainer()
    && (lim.maxDepth == 0 || exists i :: 0 <= i < lim.Shown(|Kids(v)|) && DepthLimited(Kids(v)[i], lim.Inner()))
  }

  function Omitted(v: Json, lim: Limits, unit: Unit): nat
    requires lim.Ok()
    decreases lim.maxDepth, 0
  {
    if !v.IsContainer() then 0
    else if lim.maxDepth == 0 then CountAs(v, |Kids(v)|, unit)
    else
      CountAs(v, |Kids(v)| - lim.Shown(|Kids(v)|), unit)
      + OmittedAll(Kids(v)[..lim.Shown(|Kids(v)|)], lim.Inner(), unit)
  }

  function OmittedAll(vs: seq<Json>, lim: Limits, unit: Unit): nat
    requires lim.Ok()
    decreases lim.maxDepth, |vs|
  {
    if vs == [] then 0 else Omitted(vs[0], lim, unit) + OmittedAll(vs[1..], lim, unit)
  }

  function Report(v: Json, lim: Limits): Stats
    requires lim.Ok()
  {
    Stats(Truncated(v, lim), Omitted(v, lim, Items), Omitted(v, lim, Keys), DepthLimited(v, lim))
  }

  lemma PreviewFromKids(v: Json, lim: Limits, kept: seq<Json>)
    requires lim.Ok() && v.IsContainer() && lim.maxDepth > 0
    requires |kept| == lim.Shown(|Kids(v)|)
    requires forall i :: 0 <= i < |kept| ==> kept[i] == Preview(Kids(v)[i], lim.Inner())
    ensures Preview(v, lim) == WithKids(v, kept)
  {
    assert kept == seq(|kept|, i requires 0 <= i < |kept| => Preview(Kids(v)[i], lim.Inner()));
  }

  // --- the recursive procedure of the runtime, with its loops and running statistics ---

  method CompactFitOutputPreview(v: Json, lim: Limits) returns (preview: Json, stats: Stats)
    requires lim.Ok()
    ensures preview == Preview(v, lim)
    ensures stats == Report(v, lim)
    decreases lim.maxDepth, 2
  {
    if v.IsContainer() {
      if lim.maxDepth <= 0 {
        preview := Str(Placeholder(v));
        stats := if v.Arr? then Stats(true, |v.items|, 0, true) else Stats(true, 0, |v.fields|, true);
      } else {
        preview, stats := CompactContainer(v, lim);
      }
    } else if v.Str? && |v.s| > lim.maxChars {
      preview, stats := Str(CutText(v.s, lim.maxChars)), Stats(true, 0, 0, false);
    } else {
      preview, stats := v, Stats(false, 0, 0, false);
    }
  }

  /** The list and dict branches above depth zero, which differ only in what they count. */
  method CompactContainer(v: Json, lim: Limits) returns (preview: Json, stats: Stats)
    requires lim.Ok() && v.IsContainer() && lim.maxDepth > 0
    ensures preview == Preview(v, lim)
    ensures stats == Report(v, lim)
    decreases lim.maxDepth, 1
  {
    hide Preview, WithKids, Kids;
    var kept;
    kept, stats := CompactPrefix(Kids(v), lim);
    preview := WithKids(v, kept);
    PreviewFromKids(v, lim, kept);
    var omitted := Max(0, |Kids(v)| - |kept|);
    if omitted > 0 {
      stats := stats.(truncated := true);
      if v.Arr? {
        stats := stats.(omittedItems := stats.omittedItems + omitted);
      } else {
        stats := stats.(omittedKeys := stats.omittedKeys + omitted);
      }
    }
  }

  /** The loop over the first maxItems children. */
  method CompactPrefix(kids: seq<Json>, lim: Limits) returns (kept: seq<Json>, stats: Stats)
    requires lim.Ok() && lim.maxDepth > 0
    ensures |kept| == lim.Shown(|kids|)
    ensures forall j :: 0 <= j < |kept| ==> kept[j] == Preview(kids[j], lim.Inner())
    ensures stats.truncated <==> exists j :: 0 <= j < |kept| && Truncated(kids[j], lim.Inner())
    ensures stats.depthLimited <==> exists j :: 0 <= j < |kept| && DepthLimited(kids[j], lim.Inner())
    ensures stats.omittedItems == OmittedAll(kids[..|kept|], lim.Inner(), Items)
    ensures stats.omittedKeys == OmittedAll(kids[..|kept|], lim.Inner(), Keys)
    decreases lim.maxDepth, 0
  {
    hide Preview, Truncated, DepthLimited, Omitted;
    var inner := lim.Inner();
    var visited := kids[..lim.Shown(|kids|)];
    kept, stats := [], Stats(false, 0, 0, false);
    for i := 0 to |visited|
      invariant |kept| == i
      invariant forall j :: 0 <= j < i ==> kept[j] == Preview(visited[j], inner)
      invariant stats.truncated <==> exists j :: 0 <= j < i && Truncated(visited[j], inner)
      invariant stats.depthLimited <==> exists j :: 0 <= j < i && DepthLimited(visited[j], inner)
      invariant stats.omittedItems + OmittedAll(visited[i..], inner, Items) == OmittedAll(visited, inner, Items)
      invariant stats.omittedKeys + OmittedAll(visited[i..], inner, Keys) == OmittedAll(visited, inner, Keys)
    {
      assert visited[i..][1..] == visited[i + 1..];
      var child, childStats := CompactFitOutputPreview(visited[i], inner);
      kept := kept + [child];
      stats := Stats(
        stats.truncated || childStats.truncated,
        stats.omittedItems + childStats.omittedItems,
        stats.omittedKeys + childStats.omittedKeys,
        stats.depthLimited || childStats.depthLimited);
    }
    assert visited[|visited|..] == [];
  }

  /** What Preview does to a container above depth zero. */
  lemma PreviewOfContainer(v: Json, lim: Limits)
    requires lim.Ok() && v.IsContainer() && lim.maxDepth > 0
    ensures Preview(v, lim).IsContainer() && Preview(v, lim).Arr? == v.Arr?
    ensures |Kids(Preview(v, lim))| == lim.Shown(|Kids(v)|)
    ensures forall i :: 0 <= i < lim.Shown(|Kids(v)|) ==> Kids(Preview(v, lim))[i] == Preview(Kids(v)[i], lim.Inner())
    ensures |Kids(v)| <= lim.maxItems ==> (Preview(v, lim) == v <==> Kids(Preview(v, lim)) == Kids(v))
  {
    var k := lim.Shown(|Kids(v)|);
    var kept := seq(k, i requires 0 <= i < k => Preview(Kids(v)[i], lim.Inner()));
    assert Preview(v, lim) == WithKids(v, kept);
    KidsOfRebuilt(v, kept);
    if |Kids(v)| <= lim.maxItems { RebuiltSame(v, kept); }
  }

  // --- faithfulness: the truncated flag and the limits ---

  /** The value already meets every limit. */
  predicate Within(v: Json, lim: Limits)
    decreases if lim.maxDepth < 0 then 0 else lim.maxDepth
  {
    && (v.Str? ==> |v.s| <= lim.maxChars)
    && (v.IsContainer() ==>
          lim.maxDepth > 0 && |Kids(v)| <= lim.maxItems && forall i :: 0 <= i < |Kids(v)| ==> Within(Kids(v)[i], lim.Inner()))
  }

  /** Exactly the values within the limits are reported as complete; they come back
      unchanged, with no omissions. */
  lemma {:induction false} Faithful(v: Json, lim: Limits)
    requires lim.Ok()
    ensures !Truncated(v, lim) <==> Within(v, lim)
    ensures !Truncated(v, lim) ==> Preview(v, lim) == v && Report(v, lim) == Stats(false, 0, 0, false)
    decreases lim.maxDepth
  {
    if v.IsContainer() && lim.maxDepth > 0 {
      PreviewOfContainer(v, lim);
      forall i | 0 <= i < |Kids(v)| { Faithful(Kids(v)[i], lim.Inner()); }
      if Within(v, lim) {
        assert Kids(Preview(v, lim)) == Kids(v);
        NoneOmitted(Kids(v), lim.Inner());
        assert Kids(v)[..|Kids(v)|] == Kids(v);
      }
    }
  }

  lemma {:induction false} NoneOmitted(vs: seq<Json>, lim: Limits)
    requires lim.Ok()
    requires forall v <- vs :: Omitted(v, lim, Items) == Omitted(v, lim, Keys) == 0
    ensures OmittedAll(vs, lim, Items) == OmittedAll(vs, lim, Keys) == 0
  {
    if vs != [] { NoneOmitted(vs[1..], lim); }
  }

  // --- when a preview equals its value ---

  /** A string that cutting leaves as it is when maxChars is below 4: x... */
  predicate Dotted(s: string) {
    |s| == 4 && s[1..] == "..."
  }

  /** Within the limits, except that strings of the form x... may exceed a maxChars below 4. */
  predicate WithinOrDotted(v: Json, lim: Limits)
    decreases if lim.maxDepth < 0 then 0 else lim.maxDepth
  {
    && (v.Str? ==> |v.s| <= lim.maxChars || (lim.maxChars < 4 && Dotted(v.s)))
    && (v.IsContainer() ==>
          lim.maxDepth > 0 && |Kids(v)| <= lim.maxItems
          && forall i :: 0 <= i < |Kids(v)| ==> WithinOrDotted(Kids(v)[i], lim.Inner()))
  }

  lemma CutTextSame(s: string, maxChars: int)
    requires |s| > maxChars >= 1
    ensures CutText(s, maxChars) == s <==> maxChars < 4 && Dotted(s)
  {
    if maxChars < 4 {
      assert CutText(s, maxChars) == s[..1] + "...";
      if |s| == 4 { assert s == s[..1] + s[1..]; }
    }
  }

  /** The preview equals the value exactly when nothing had to be cut, up to x... strings. */
  lemma {:induction false} PreviewUnchanged(v: Json, lim: Limits)
    requires lim.Ok()
    ensures Preview(v, lim) == v <==> WithinOrDotted(v, lim)
    decreases lim.maxDepth
  {
    if v.Str? && |v.s| > lim.maxChars {
      CutTextSame(v.s, lim.maxChars);
    } else if v.IsContainer() && lim.maxDepth > 0 {
      PreviewOfContainer(v, lim);
      forall i | 0 <= i < |Kids(v)| { PreviewUnchanged(Kids(v)[i], lim.Inner()); }
    }
  }

  /** From 4 characters up the two notions of "nothing cut" are the same. */
  lemma {:induction false} WithinFromFour(v: Json, lim: Limits)
    requires lim.maxChars >= 4 && lim.maxDepth >= 0
    ensures WithinOrDotted(v, lim) <==> Within(v, lim)
    decreases lim.maxDepth
  {
    if v.IsContainer() && lim.maxDepth > 0 {
      forall i | 0 <= i < |Kids(v)| { WithinFromFour(Kids(v)[i], lim.Inner()); }
    }
  }

  /** With a budget of at least 4 characters, truncated means exactly that the preview differs. */
  lemma TruncatedMeansChanged(v: Json, lim: Limits)
    requires lim.Ok() && lim.maxChars >= 4
    ensures Truncated(v, lim) <==> Preview(v, lim) != v
  {
    Faithful(v, lim);
    PreviewUnchanged(v, lim);
    WithinFromFour(v, lim);
  }

  /** In general the flag is raised over an unchanged preview for exactly the values that
      break the limits by nothing but strings of the form x... under a budget below 4. */
  lemma TruncatedButUnchanged(v: Json, lim: Limits)
    requires lim.Ok()
    ensures Truncated(v, lim) && Preview(v, lim) == v <==> !Within(v, lim) && WithinOrDotted(v, lim)
  {
    Faithful(v, lim);
    PreviewUnchanged(v, lim);
  }

  lemma TruncatedButUnchangedExample()
    ensures Truncated(Str("a..."), Limits(3, 1, 1)) && Preview(Str("a..."), Limits(3, 1, 1)) == Str("a...")
  {
    CutTextSame("a...", 3);
  }

  // --- bounds on the preview ---

  /** Containers have at most maxItems children and sit fewer than maxDepth levels deep;
      every string is short or is a placeholder. */
  ghost predicate Bounded(p: Json, lim: Limits)
    decreases if lim.maxDepth < 0 then 0 else lim.maxDepth
  {
    && (p.Str? ==> |p.s| <= Max(4, lim.maxChars) || exists v: Json :: v.IsContainer() && p.s == Placeholder(v))
    && (p.IsContainer() ==>
          lim.maxDepth > 0 && |Kids(p)| <= lim.maxItems && forall i :: 0 <= i < |Kids(p)| ==> Bounded(Kids(p)[i], lim.Inner()))
  }

  lemma {:induction false} PreviewBounded(v: Json, lim: Limits)
    requires lim.Ok()
    ensures Bounded(Preview(v, lim), lim)
    decreases lim.maxDepth
  {
    if v.IsContainer() && lim.maxDepth > 0 {
      PreviewOfContainer(v, lim);
      forall i | 0 <= i < lim.Shown(|Kids(v)|) { PreviewBounded(Kids(v)[i], lim.Inner()); }
    }
  }

  // --- accounting: nothing is dropped without being counted ---

  /** The list items, or dict keys, of all containers that the compactor reaches. */
  function Visited(v: Json, lim: Limits, unit: Unit): nat
    requires lim.Ok()
    decreases lim.maxDepth, 0
  {
    if !v.IsContainer() then 0
    else if lim.maxDepth == 0 then CountAs(v, |Kids(v)|, unit)
    else CountAs(v, |Kids(v)|, unit) + VisitedAll(Kids(v)[..lim.Shown(|Kids(v)|)], lim.Inner(), unit)
  }

  function VisitedAll(vs: seq<Json>, lim: Limits, unit: Unit): nat
    requires lim.Ok()
    decreases lim.maxDepth, |vs|
  {
    if vs == [] then 0 else Visited(vs[0], lim, unit) + VisitedAll(vs[1..], lim, unit)
  }

  /** All list items, or dict keys, of a value, at every depth. */
  function Children(v: Json, unit: Unit): nat
    decreases v, 1
  {
    match v
    case Arr(items) => CountAs(v, |items|, unit) + ChildrenOfItems(items, unit)
    case Obj(fields) => CountAs(v, |fields|, unit) + ChildrenOfFields(fields, unit)
    case _ => 0
  }

  function ChildrenOfItems(items: seq<Json>, unit: Unit): nat
    decreases items, 0
  {
    if items == [] then 0 else Children(items[0], unit) + ChildrenOfItems(items[1..], unit)
  }

  function ChildrenOfFields(fields: seq<Field>, unit: Unit): nat
    decreases fields, 0
  {
    if fields == [] then 0 else Children(fields[0].value, unit) + ChildrenOfFields(fields[1..], unit)
  }

  lemma {:induction false} ChildrenOfValues(fields: seq<Field>, unit: Unit)
    ensures ChildrenOfFields(fields, unit) == ChildrenOfItems(Values(fields), unit)
  {
    if fields != [] {
      ChildrenOfValues(fields[1..], unit);
      assert Values(fields)[1..] == Values(fields[1..]);
    }
  }

  lemma ChildrenOfContainer(v: Json, unit: Unit)
    requires v.IsContainer()
    ensures Children(v, unit) == CountAs(v, |Kids(v)|, unit) + ChildrenOfItems(Kids(v), unit)
  {
    if v.Obj? { ChildrenOfValues(v.fields, unit); }
  }

  /** The items kept anywhere in the preview plus the items omitted are the items of the
      containers reached; dict keys likewise. */
  lemma {:induction false} Accounting(v: Json, lim: Limits, unit: Unit)
    requires lim.Ok()
    ensures Children(Preview(v, lim), unit) + Omitted(v, lim, unit) == Visited(v, lim, unit)
    decreases lim.maxDepth, 0
  {
    if v.IsContainer() && lim.maxDepth > 0 {
      var k := lim.Shown(|Kids(v)|);
      PreviewOfContainer(v, lim);
      ChildrenOfContainer(Preview(v, lim), unit);
      AccountingAll(Kids(v)[..k], Kids(Preview(v, lim)), lim.Inner(), unit);
    }
  }

  lemma {:induction false} AccountingAll(vs: seq<Json>, previews: seq<Json>, lim: Limits, unit: Unit)
    requires lim.Ok()
    requires |previews| == |vs| && forall i :: 0 <= i < |vs| ==> previews[i] == Preview(vs[i], lim)
    ensures ChildrenOfItems(previews, unit) + OmittedAll(vs, lim, unit) == VisitedAll(vs, lim, unit)
    decreases lim.maxDepth, |vs|
  {
    if vs != [] {
      Accounting(vs[0], lim, unit);
      AccountingAll(vs[1..], previews[1..], lim, unit);
    }
  }

  // --- compacting a preview again ---

  /** Every container that is replaced by a placeholder has one that fits the budget. */
  predicate PlaceholdersFit(v: Json, lim: Limits)
    requires lim.Ok()
    decreases lim.maxDepth
  {
    v.IsContainer() ==>
      if lim.maxDepth == 0 then |Placeholder(v)| <= lim.maxChars
      else forall i :: 0 <= i < lim.Shown(|Kids(v)|) ==> PlaceholdersFit(Kids(v)[i], lim.Inner())
  }

  lemma {:induction false} PreviewWithin(v: Json, lim: Limits)
    requires lim.Ok()
    ensures WithinOrDotted(Preview(v, lim), lim) <==> PlaceholdersFit(v, lim)
    decreases lim.maxDepth
  {
    if v.Str? && |v.s| > lim.maxChars && lim.maxChars < 4 {
      assert CutText(v.s, lim.maxChars)[1..] == "...";
    } else if v.IsContainer() && lim.maxDepth > 0 {
      PreviewOfContainer(v, lim);
      forall i | 0 <= i < lim.Shown(|Kids(v)|) { PreviewWithin(Kids(v)[i], lim.Inner()); }
    }
  }

  /** Compacting a preview again under the same limits gives the same preview exactly when
      every placeholder fits the character budget. */
  lemma CompactIdempotent(v: Json, lim: Limits)
    requires lim.Ok()
    ensures Preview(Preview(v, lim), lim) == Preview(v, lim) <==> PlaceholdersFit(v, lim)
  {
    PreviewWithin(v, lim);
    PreviewUnchanged(Preview(v, lim), lim);
  }

  /** A placeholder longer than the budget is cut itself when its preview is compacted again. */
  lemma PlaceholderCutExample()
    ensures var lim := Limits(3, 1, 0);
      Preview(Preview(Arr([Null]), lim), lim) != Preview(Arr([Null]), lim)
  {
    hide Decimal, DigitCount;
    var lim, p := Limits(3, 1, 0), Placeholder(Arr([Null]));
    assert |p| > 10;
    assert Preview(Arr([Null]), lim) == Str(p);
    assert Preview(Str(p), lim) == Str(CutText(p, 3)) && |CutText(p, 3)| == 4;
  }
}
