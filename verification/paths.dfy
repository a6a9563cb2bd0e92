/** Workspace paths: the runtime root of the child and the host root of Node, on top of
    posixpath's normpath, join and relpath. */
module Paths {
  import opened Text

  // --- slashes ---

  /** str.split("/"). */
  function Split(s: string): (parts: seq<string>)
    ensures parts != []
    decreases |s|
  {
    var i := IndexOf('/', s);
    if i == |s| then [s] else [s[..i]] + Split(s[i + 1..])
  }

  lemma SplitStep(head: string, tail: string)
    requires Lacks('/', head)
    ensures Split(head + "/" + tail) == [head] + Split(tail)
  {
    var s := head + "/" + tail;
    assert s[..|head|] == head && s[|head|] == '/' && s[|head| + 1..] == tail;
    IndexOfAt('/', s, |head|);
  }

  lemma SplitPlain(s: string)
    requires Lacks('/', s)
    ensures Split(s) == [s]
  {
    assert s[..|s|] == s;
    IndexOfAt('/', s, |s|);
  }

  /** Splitting and joining undo each other on parts without slashes. */
  lemma {:induction false} SplitJoin(parts: seq<string>)
    requires parts != [] && forall i :: 0 <= i < |parts| ==> Lacks('/', parts[i])
    ensures Split(Join(parts, "/")) == parts
  {
    hide Split, Lacks;
    if |parts| == 1 {
      SplitPlain(parts[0]);
    } else {
      SplitJoin(parts[1..]);
      SplitStep(parts[0], Join(parts[1..], "/"));
    }
  }

  lemma {:induction false} SplitConcat(a: string, b: string)
    ensures Split(a + "/" + b) == Split(a) + Split(b)
    decreases |a|
  {
    hide Split, Lacks;
    var i := IndexOf('/', a);
    if i == |a| {
      SplitPlainOrStep(a, b);
    } else {
      var head, tail := a[..i], a[i + 1..];
      SplitConcat(tail, b);
      assert a == head + "/" + tail;
      SplitConcatStep(head, tail, b);
    }
  }

  lemma SplitConcatStep(head: string, tail: string, b: string)
    requires Lacks('/', head) && Split(tail + "/" + b) == Split(tail) + Split(b)
    ensures Split(head + "/" + tail + "/" + b) == Split(head + "/" + tail) + Split(b)
  {
    hide Split, Lacks;
    SplitStep(head, tail);
    assert head + "/" + tail + "/" + b == head + "/" + (tail + "/" + b);
    SplitStep(head, tail + "/" + b);
    Associative([head], Split(tail), Split(b));
  }

  lemma SplitPlainOrStep(a: string, b: string)
    requires IndexOf('/', a) == |a|
    ensures Split(a + "/" + b) == Split(a) + Split(b)
  {
    assert a[..|a|] == a;
    SplitPlain(a);
    SplitStep(a, b);
  }

  lemma {:induction false} JoinConcat(a: seq<string>, b: seq<string>)
    requires a != [] && b != []
    ensures Join(a + b, "/") == Join(a, "/") + "/" + Join(b, "/")
  {
    if |a| == 1 {
      assert (a + b)[1..] == b;
    } else {
      assert (a + b)[1..] == a[1..] + b;
      JoinConcat(a[1..], b);
      assert a[0] + "/" + (Join(a[1..], "/") + "/" + Join(b, "/")) == (a[0] + "/" + Join(a[1..], "/")) + "/" + Join(b, "/");
    }
  }

  // --- posixpath ---

  predicate IsAbs(p: string) {
    p != [] && p[0] == '/'
  }

  predicate StartsWith(s: string, prefix: string) {
    |prefix| <= |s| && s[..|prefix|] == prefix
  }

  /** POSIX keeps two leading slashes apart; one, or three and more, count as one. */
  function LeadingSlashes(p: string): (k: nat)
    ensures k <= 2
    ensures k == 0 <==> !IsAbs(p)
  {
    if !IsAbs(p) then 0
    else if |p| >= 2 && p[1] == '/' && !(|p| >= 3 && p[2] == '/') then 2
    else 1
  }

  /** One turn of normpath's loop over the components. */
  function Push(kept: seq<string>, part: string, absolute: bool): seq<string> {
    if part == "" || part == "." then kept
    else if part != ".." || (!absolute && kept == []) || (kept != [] && kept[|kept| - 1] == "..") then kept + [part]
    else if kept != [] then kept[..|kept| - 1]
    else kept
  }

  function PushAll(kept: seq<string>, parts: seq<string>, absolute: bool): seq<string>
    decreases |parts|
  {
    if parts == [] then kept else PushAll(Push(kept, parts[0], absolute), parts[1..], absolute)
  }

  function Components(p: string): seq<string> {
    PushAll([], Split(p), IsAbs(p))
  }

  /** A path put together from its leading slashes and its components. */
  function Render(slashes: nat, comps: seq<string>): string {
    (if slashes == 0 then "" else if slashes == 1 then "/" else "//") + Join(comps, "/")
  }

  function NormPath(p: string): string {
    if p == "" then "."
    else
      var r := Render(LeadingSlashes(p), Components(p));
      if r == "" then "." else r
  }

  function JoinPath(a: string, b: string): string {
    if IsAbs(b) then b
    else if a == "" || a[|a| - 1] == '/' then a + b
    else a + "/" + b
  }

  function CommonPrefix(a: seq<string>, b: seq<string>): (n: nat)
    ensures n <= |a| && n <= |b| && a[..n] == b[..n]
  {
    if a == [] || b == [] || a[0] != b[0] then 0
    else
      var n := CommonPrefix(a[1..], b[1..]);
      assert a[..n + 1] == [a[0]] + a[1..][..n] && b[..n + 1] == [b[0]] + b[1..][..n];
      n + 1
  }

  /** relpath of an absolute path from an absolute start. */
  function RelPath(p: string, start: string): string {
    var a, b := Components(start), Components(p);
    var n := CommonPrefix(a, b);
    var rel := seq(|a| - n, _ => "..") + b[n..];
    if rel == [] then "." else Join(rel, "/")
  }

  // --- what normal paths look like ---

  predicate CleanPart(part: string) {
    Lacks('/', part) && part != "" && part != "." && part != ".."
  }

  predicate CleanParts(parts: seq<string>) {
    forall i :: 0 <= i < |parts| ==> CleanPart(parts[i])
  }

  lemma {:induction false} SplitNoSlash(s: string)
    ensures forall i :: 0 <= i < |Split(s)| ==> Lacks('/', Split(s)[i])
    decreases |s|
  {
    var i := IndexOf('/', s);
    if i < |s| {
      SplitNoSlash(s[i + 1..]);
    } else {
      assert s[..i] == s;
    }
  }

  lemma {:induction false} PushAllClean(kept: seq<string>, parts: seq<string>)
    requires CleanParts(kept) && forall i :: 0 <= i < |parts| ==> Lacks('/', parts[i])
    ensures CleanParts(PushAll(kept, parts, true))
    decreases |parts|
  {
    if parts != [] {
      PushAllClean(Push(kept, parts[0], true), parts[1..]);
    }
  }

  lemma ComponentsClean(p: string)
    requires IsAbs(p)
    ensures CleanParts(Components(p))
  {
    SplitNoSlash(p);
    PushAllClean([], Split(p));
  }

  lemma {:induction false} PushAllConcat(kept: seq<string>, a: seq<string>, b: seq<string>, absolute: bool)
    ensures PushAll(kept, a + b, absolute) == PushAll(PushAll(kept, a, absolute), b, absolute)
    decreases |a|
  {
    if a == [] {
      assert a + b == b;
    } else {
      assert (a + b)[1..] == a[1..] + b;
      PushAllConcat(Push(kept, a[0], absolute), a[1..], b, absolute);
    }
  }

  lemma {:induction false} PushAllKeepsClean(kept: seq<string>, parts: seq<string>, absolute: bool)
    requires CleanParts(parts)
    ensures PushAll(kept, parts, absolute) == kept + parts
    decreases |parts|
  {
    if parts == [] {
      assert kept + parts == kept;
    } else {
      assert CleanPart(parts[0]);
      assert (kept + [parts[0]]) + parts[1..] == kept + parts;
      PushAllKeepsClean(kept + [parts[0]], parts[1..], absolute);
    }
  }

  lemma PushEmpty(kept: seq<string>, absolute: bool)
    ensures PushAll(kept, [""], absolute) == kept
    ensures PushAll(kept, ["."], absolute) == kept
  {
    assert [""][1..] == [] && ["."][1..] == [];
  }

  /** The head of a rendered path, in front of its components. */
  lemma SplitRender(k: nat, comps: seq<string>)
    requires k == 1 || k == 2
    requires CleanParts(comps)
    ensures Split(Render(k, comps)) == (if k == 1 then [""] else ["", ""]) + (if comps == [] then [""] else comps)
  {
    hide Split;
    var body := Join(comps, "/");
    if comps == [] { SplitPlain(""); } else { SplitJoin(comps); }
    assert "/" + body == "" + "/" + body;
    SplitStep("", body);
    if k == 2 {
      assert "//" + body == "" + "/" + ("/" + body);
      SplitStep("", "/" + body);
      assert [""] + ([""] + Split(body)) == ["", ""] + Split(body);
    }
  }

  lemma JoinStartsClean(comps: seq<string>)
    requires CleanParts(comps)
    ensures Join(comps, "/") == "" <==> comps == []
    ensures comps != [] ==> Join(comps, "/")[0] != '/'
  {
    if comps != [] { assert CleanPart(comps[0]); }
  }

  /** A rendered path is normal: its slashes and components can be read back from it. */
  lemma RenderNormal(k: nat, comps: seq<string>)
    requires (k == 1 || k == 2) && CleanParts(comps)
    ensures IsAbs(Render(k, comps)) && LeadingSlashes(Render(k, comps)) == k
    ensures Components(Render(k, comps)) == comps
    ensures NormPath(Render(k, comps)) == Render(k, comps)
  {
    hide Split, Join, Push;
    JoinStartsClean(comps);
    SplitRender(k, comps);
    var lead := if k == 1 then [""] else ["", ""];
    var rest := if comps == [] then [""] else comps;
    PushAllConcat([], lead, rest, true);
    PushEmpty([], true);
    if k == 2 {
      assert ["", ""] == [""] + [""];
      PushAllConcat([], [""], [""], true);
    }
    if comps != [] {
      PushAllKeepsClean([], comps, true);
      assert [] + comps == comps;
    }
  }

  /** normpath of an absolute path is rendered from clean components, and is idempotent. */
  lemma NormalForm(p: string)
    requires IsAbs(p)
    ensures NormPath(p) == Render(LeadingSlashes(p), Components(p))
    ensures CleanParts(Components(p)) && IsAbs(NormPath(p))
    ensures LeadingSlashes(NormPath(p)) == LeadingSlashes(p) && Components(NormPath(p)) == Components(p)
    ensures NormPath(NormPath(p)) == NormPath(p)
  {
    hide Split, Join, Push, PushAll;
    ComponentsClean(p);
    RenderNormal(LeadingSlashes(p), Components(p));
  }

  /** The path below a root, by its components. */
  function RelText(rest: seq<string>): string {
    if rest == [] then "." else Join(rest, "/")
  }

  lemma RelTextRelative(rest: seq<string>)
    requires CleanParts(rest)
    ensures RelText(rest) != "" && !IsAbs(RelText(rest))
    ensures forall absolute :: PushAll([], Split(RelText(rest)), absolute) == rest
    ensures forall kept: seq<string>, absolute :: PushAll(kept, Split(RelText(rest)), absolute) == kept + rest
  {
    hide Push, PushAll;
    JoinStartsClean(rest);
    forall kept: seq<string>, absolute ensures PushAll(kept, Split(RelText(rest)), absolute) == kept + rest {
      if rest == [] {
        SplitPlain(".");
        PushEmpty(kept, absolute);
        assert kept + rest == kept;
      } else {
        SplitJoin(rest);
        PushAllKeepsClean(kept, rest, absolute);
      }
    }
    forall absolute ensures PushAll([], Split(RelText(rest)), absolute) == rest {
      assert PushAll([], Split(RelText(rest)), absolute) == [] + rest;
    }
  }

  lemma JoinedComponents(root: string, rel: string)
    requires IsAbs(root) && !IsAbs(rel)
    ensures IsAbs(JoinPath(root, rel)) && Components(JoinPath(root, rel)) == PushAll(Components(root), Split(rel), true)
  {
    hide Split, Join, Push, PushAll;
    if root[|root| - 1] == '/' {
      var front := root[..|root| - 1];
      assert JoinPath(root, rel) == front + "/" + rel;
      assert root == front + "/" + "";
      SplitConcat(front, rel);
      SplitConcat(front, "");
      SplitPlain("");
      PushAllConcat([], Split(front), Split(rel), true);
      PushAllConcat([], Split(front), [""], true);
      PushEmpty(PushAll([], Split(front), true), true);
    } else {
      SplitConcat(root, rel);
      PushAllConcat([], Split(root), Split(rel), true);
    }
  }

  lemma JoinKeepsSlashes(root: string, rel: string)
    requires IsAbs(root) && !IsAbs(rel) && rel != ""
    ensures LeadingSlashes(JoinPath(root, rel)) == LeadingSlashes(root)
  {
  }

  /** Joining a relative text below a root and normalising appends its components. */
  lemma NormJoin(root: string, rest: seq<string>)
    requires IsAbs(root) && CleanParts(rest)
    ensures NormPath(JoinPath(root, RelText(rest))) == Render(LeadingSlashes(root), Components(root) + rest)
    ensures CleanParts(Components(root) + rest)
  {
    hide Split, Join, Push, PushAll, RelText;
    RelTextRelative(rest);
    ComponentsClean(root);
    JoinedComponents(root, RelText(rest));
    JoinKeepsSlashes(root, RelText(rest));
    NormalForm(JoinPath(root, RelText(rest)));
  }

  // --- what the parts of a path mean ---

  /** One leading slash is one; exactly two are kept apart; more count as one. */
  lemma LeadingSlashesMean(q: string)
    requires !IsAbs(q)
    ensures LeadingSlashes("/" + q) == 1 && LeadingSlashes("//" + q) == 2 && LeadingSlashes("///" + q) == 1
  {
    assert ("/" + q)[0] == '/' && (q != "" ==> ("/" + q)[1] == q[0]);
    assert ("//" + q)[1] == '/' && (q != "" ==> ("//" + q)[2] == q[0]);
    assert ("///" + q)[2] == '/';
  }

  /** Below an absolute path, a dot stays, two dots go up one level and stay at the root, and any
      other name goes down to it. */
  lemma ComponentsMean(p: string, name: string)
    requires IsAbs(p) && CleanPart(name)
    ensures Components(JoinPath(p, ".")) == Components(p)
    ensures Components(JoinPath(p, "..")) == if Components(p) == [] then [] else Components(p)[..|Components(p)| - 1]
    ensures Components(JoinPath(p, name)) == Components(p) + [name]
    ensures Components("/") == []
  {
    ComponentsClean(p);
    JoinedComponents(p, ".");
    JoinedComponents(p, "..");
    JoinedComponents(p, name);
    SplitPlain(".");
    SplitPlain("..");
    SplitPlain(name);
    SplitPlain("");
    SplitStep("", "");
    assert "" + "/" + "" == "/";
    OnePush(Components(p), ".");
    OnePush(Components(p), "..");
    OnePush(Components(p), name);
    OnePush([], "");
    assert ["", ""] == [""] + [""];
    PushAllConcat([], [""], [""], true);
    var kept := Components(p);
    assert kept != [] ==> CleanPart(kept[|kept| - 1]);
  }

  lemma OnePush(kept: seq<string>, part: string)
    ensures PushAll(kept, [part], true) == Push(kept, part, true)
  {
    assert [part][1..] == [];
  }

  lemma {:induction false} GoUp(kept: seq<string>, n: nat)
    requires CleanParts(kept) && n <= |kept|
    ensures PushAll(kept, seq(n, _ => ".."), true) == kept[..|kept| - n]
    decreases n
  {
    var ups := seq(n, _ => "..");
    if n > 0 {
      assert ups[1..] == seq(n - 1, _ => "..");
      assert CleanPart(kept[|kept| - 1]);
      assert Push(kept, "..", true) == kept[..|kept| - 1];
      GoUp(kept[..|kept| - 1], n - 1);
      assert kept[..|kept| - 1][..|kept| - n] == kept[..|kept| - n];
    }
  }

  /** Going up to what two paths share and down from there leads from one to the other. */
  lemma UpAndDown(a: seq<string>, b: seq<string>, n: nat)
    requires CleanParts(a) && CleanParts(b) && n <= |a| && n <= |b| && a[..n] == b[..n]
    ensures PushAll(a, seq(|a| - n, _ => "..") + b[n..], true) == b
  {
    hide Push, PushAll;
    var ups, down := seq(|a| - n, _ => ".."), b[n..];
    PushAllConcat(a, ups, down, true);
    GoUp(a, |a| - n);
    PushAllKeepsClean(a[..n], down, true);
    assert a[..|a| - (|a| - n)] + down == b;
  }

  /** relpath undoes join: from the start, the relative path leads to the path. */
  lemma RelPathLeadsBack(p: string, start: string)
    requires IsAbs(p) && IsAbs(start)
    ensures !IsAbs(RelPath(p, start))
    ensures NormPath(JoinPath(start, RelPath(p, start))) == Render(LeadingSlashes(start), Components(p))
  {
    hide Split, Push, PushAll, Join;
    var a, b := Components(start), Components(p);
    ComponentsClean(start);
    ComponentsClean(p);
    var n := CommonPrefix(a, b);
    var ups, down := seq(|a| - n, _ => ".."), b[n..];
    RelPathSplits(ups, down, RelPath(p, start));
    JoinedComponents(start, RelPath(p, start));
    UpAndDown(a, b, n);
    if ups + down == [] { PushEmpty(a, true); PushNone(a); }
    NormalForm(JoinPath(start, RelPath(p, start)));
    JoinKeepsSlashes(start, RelPath(p, start));
  }

  lemma PushNone(kept: seq<string>)
    ensures PushAll(kept, [], true) == kept
  {
  }

  lemma RelPathSplits(ups: seq<string>, down: seq<string>, text: string)
    requires forall i :: 0 <= i < |ups| ==> ups[i] == ".."
    requires CleanParts(down) && text == if ups + down == [] then "." else Join(ups + down, "/")
    ensures !IsAbs(text) && text != ""
    ensures Split(text) == if ups + down == [] then ["."] else ups + down
  {
    hide Split;
    var rel := ups + down;
    if rel == [] {
      SplitPlain(".");
    } else {
      assert forall i :: 0 <= i < |rel| ==> Lacks('/', rel[i]) && rel[i] != "";
      SplitJoin(rel);
      assert rel[0] != "" && rel[0][0] != '/';
      JoinStarts(rel);
    }
  }

  lemma JoinStarts(parts: seq<string>)
    requires parts != [] && parts[0] != ""
    ensures Join(parts, "/") != "" && Join(parts, "/")[0] == parts[0][0]
  {
  }
}
