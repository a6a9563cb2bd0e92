/** The translation between the runtime's workspace root and the host's. */
module Workspace {
  import opened Wrappers
  import opened Paths
  import opened Text

  /** The two roots are absolute paths, as the working directories they come from. */
  datatype Roots = Roots(host: string, runtime: string) {
    predicate Ok() {
      IsAbs(host) && IsAbs(runtime)
    }
  }

  /** The prefix test of the source, on normal paths: the root itself, or below it. */
  predicate Under(root: string, p: string) {
    p == root || StartsWith(p, root + "/")
  }

  function HostAbspath(w: Roots, p: string): string
    requires w.Ok()
  {
    if IsAbs(p) then
      var runtimeRoot := NormPath(w.runtime);
      var normalized := NormPath(p);
      if Under(runtimeRoot, normalized) then NormPath(JoinPath(w.host, RelPath(normalized, runtimeRoot))) else normalized
    else NormPath(JoinPath(w.host, p))
  }

  function RelativizePath(w: Roots, p: string): string
    requires w.Ok()
  {
    if !IsAbs(p) then p
    else
      var root := NormPath(w.host);
      var normed := NormPath(p);
      if Under(root, normed) then RelPath(normed, root) else p
  }

  function AbsolutizeDiscovered(w: Roots, p: string, base: string): string
    requires w.Ok()
  {
    if IsAbs(p) then HostAbspath(w, p) else NormPath(JoinPath(base, p))
  }

  /** The root that discovered paths are made relative to. */
  function FormatRoot(w: Roots, relativeTo: Option<string>): string
    requires w.Ok()
  {
    if relativeTo.Some? then HostAbspath(w, relativeTo.value) else NormPath(w.host)
  }

  function FormatDiscovered(w: Roots, p: string, relative: bool, relativeTo: Option<string>): string
    requires w.Ok()
  {
    var absolute := HostAbspath(w, p);
    if !relative then absolute
    else
      var root := FormatRoot(w, relativeTo);
      if Under(root, absolute) then RelPath(absolute, root) else absolute
  }

  // --- being under a root, by components ---

  predicate PrefixOf(a: seq<string>, b: seq<string>) {
    |a| <= |b| && b[..|a|] == a
  }

  lemma RenderBelow(k: nat, root: seq<string>, rest: seq<string>)
    requires root != [] && rest != []
    ensures Render(k, root + rest) == Render(k, root) + "/" + Join(rest, "/")
  {
    hide Join;
    JoinConcat(root, rest);
  }

  lemma CancelLead(lead: seq<string>, a: seq<string>, b: seq<string>)
    requires lead + a == lead + b
    ensures a == b
  {
    assert (lead + a)[|lead|..] == a && (lead + b)[|lead|..] == b;
  }

  /** A rendered path that starts with a root and a slash has the root's components first. */
  lemma StartsWithRoot(k: nat, root: seq<string>, j: nat, comps: seq<string>)
    requires 1 <= k <= 2 && 1 <= j <= 2 && CleanParts(root) && CleanParts(comps)
    requires StartsWith(Render(j, comps), Render(k, root) + "/")
    ensures PrefixOf(root, comps)
    ensures root != [] ==> j == k && |root| < |comps|
    ensures root == [] ==> j == 2 && k == 1
  {
    hide Split, Join;
    var p, r := Render(j, comps), Render(k, root);
    RenderNormal(j, comps);
    RenderNormal(k, root);
    JoinStartsClean(comps);
    JoinStartsClean(root);
    if root == [] {
      assert |r| == k && p[..k + 1][k] == '/';
      assert comps != [] ==> p[j] == Join(comps, "/")[0];
    } else {
      var t := p[|r| + 1..];
      assert p == r + "/" + t;
      SplitConcat(r, t);
      SplitRender(k, root);
      SplitRender(j, comps);
      assert CleanPart(root[0]);
      Associative(if k == 1 then [""] else ["", ""], root, Split(t));
      SameLead(k, root + Split(t), j, comps);
    }
  }

  /** Leading slashes and components are determined by the split. */
  lemma SameLead(k: nat, a: seq<string>, j: nat, comps: seq<string>)
    requires 1 <= k <= 2 && 1 <= j <= 2 && CleanParts(comps)
    requires |a| >= 2 && a[0] != ""
    requires (if k == 1 then [""] else ["", ""]) + a == (if j == 1 then [""] else ["", ""]) + (if comps == [] then [""] else comps)
    ensures j == k && a == comps
  {
    var left := (if k == 1 then [""] else ["", ""]) + a;
    var right := (if j == 1 then [""] else ["", ""]) + (if comps == [] then [""] else comps);
    assert left[k] == a[0] && (k == 2 ==> left[1] == "");
    assert comps == [] ==> forall part <- right :: part == "";
    assert a[0] in right by { assert a[0] in left; }
    assert comps != [] ==> CleanPart(comps[0]) && right[j] == comps[0] && (j == 2 ==> right[1] == "");
    if comps != [] && j == k {
      CancelLead(if k == 1 then [""] else ["", ""], a, comps);
    }
  }

  /** Under, for roots with at least one component: same slashes, and the root's components first. */
  lemma UnderByComponents(root: string, p: string)
    requires IsAbs(root) && IsAbs(p)
    ensures Under(NormPath(root), NormPath(p)) ==> PrefixOf(Components(root), Components(p))
    ensures Components(root) != [] ==>
      (Under(NormPath(root), NormPath(p)) <==> LeadingSlashes(root) == LeadingSlashes(p) && PrefixOf(Components(root), Components(p)))
    ensures Components(root) == [] ==>
      (Under(NormPath(root), NormPath(p))
       <==> (LeadingSlashes(root) == 1 && LeadingSlashes(p) == 2) || (LeadingSlashes(p) == LeadingSlashes(root) && Components(p) == []))
  {
    hide CleanParts, PushAll, Split;
    NormalForm(root);
    NormalForm(p);
    var k, j, a, b := LeadingSlashes(root), LeadingSlashes(p), Components(root), Components(p);
    if StartsWith(NormPath(p), NormPath(root) + "/") {
      StartsWithRoot(k, a, j, b);
    } else if NormPath(p) == NormPath(root) {
      RenderNormal(k, a);
      RenderNormal(j, b);
    }
    if a == [] && k == 1 && j == 2 {
      assert Join(a, "/") == "" && NormPath(root) + "/" == "//";
    }
    if a != [] && j == k && PrefixOf(a, b) {
      var rest := b[|a|..];
      assert b == a + rest;
      if rest == [] {
        assert b == a;
      } else {
        RenderBelow(k, a, rest);
        assert NormPath(p)[..|NormPath(root) + "/"|] == NormPath(root) + "/";
      }
    }
  }

  lemma {:induction false} CommonPrefixFull(a: seq<string>, b: seq<string>)
    requires PrefixOf(a, b)
    ensures CommonPrefix(a, b) == |a|
  {
    if a != [] {
      assert a[0] == b[..|a|][0];
      assert b[1..][..|a| - 1] == b[..|a|][1..];
      CommonPrefixFull(a[1..], b[1..]);
    }
  }

  lemma RelPathBelow(root: string, p: string)
    requires IsAbs(root) && IsAbs(p) && PrefixOf(Components(root), Components(p))
    ensures RelPath(NormPath(p), NormPath(root)) == RelText(Components(p)[|Components(root)|..])
    ensures CleanParts(Components(p)[|Components(root)|..])
  {
    hide Join, PushAll, Split;
    NormalForm(root);
    NormalForm(p);
    var a, b := Components(root), Components(p);
    CommonPrefixFull(a, b);
    assert seq(0, _ => "..") + b[|a|..] == b[|a|..];
  }

  /** A path under the runtime root moves to the same place under the host root. */
  lemma HostOfBelow(w: Roots, p: string)
    requires w.Ok() && IsAbs(p) && Under(NormPath(w.runtime), NormPath(p))
    ensures PrefixOf(Components(w.runtime), Components(p))
    ensures var rest := Components(p)[|Components(w.runtime)|..];
      && CleanParts(rest)
      && HostAbspath(w, p) == Render(LeadingSlashes(w.host), Components(w.host) + rest)
      && IsAbs(HostAbspath(w, p))
      && LeadingSlashes(HostAbspath(w, p)) == LeadingSlashes(w.host)
      && Components(HostAbspath(w, p)) == Components(w.host) + rest
      && NormPath(HostAbspath(w, p)) == HostAbspath(w, p)
  {
    hide Join, PushAll, Split, NormPath, RelPath, Render, RelText, JoinPath, LeadingSlashes, CleanParts;
    UnderByComponents(w.runtime, p);
    var rest := Components(p)[|Components(w.runtime)|..];
    RelPathBelow(w.runtime, p);
    NormJoin(w.host, rest);
    SlashesOfAbs(w.host);
    RenderNormal(LeadingSlashes(w.host), Components(w.host) + rest);
  }

  lemma SlashesOfAbs(p: string)
    requires IsAbs(p)
    ensures 1 <= LeadingSlashes(p) <= 2
  {
  }

  /** A path elsewhere is only normalised. */
  lemma HostOfOther(w: Roots, p: string)
    requires w.Ok() && IsAbs(p) && !Under(NormPath(w.runtime), NormPath(p))
    ensures HostAbspath(w, p) == NormPath(p)
  {
  }

  // --- main results ---

  /** From the host to a workspace-relative path and back: for every absolute path under the
      host root this is normalisation, exactly when the path has as many leading slashes as
      the root, which any root other than a bare / or // ensures. */
  lemma RelativizeRoundTrip(w: Roots, p: string)
    requires w.Ok() && IsAbs(p) && Under(NormPath(w.host), NormPath(p))
    ensures HostAbspath(w, RelativizePath(w, p)) == NormPath(p) <==> LeadingSlashes(p) == LeadingSlashes(w.host)
    ensures Components(w.host) != [] ==> LeadingSlashes(p) == LeadingSlashes(w.host)
  {
    hide Join, PushAll, Split, NormPath, RelPath, Render, RelText, JoinPath, LeadingSlashes, CleanParts;
    UnderByComponents(w.host, p);
    RelPathBelow(w.host, p);
    var host, comps := Components(w.host), Components(p);
    var rest := comps[|host|..];
    assert host + rest == comps;
    RelTextRelative(rest);
    NormJoin(w.host, rest);
    NormalForm(p);
    SlashesOfAbs(w.host);
    SlashesOfAbs(p);
    RenderNormal(LeadingSlashes(w.host), comps);
    RenderNormal(LeadingSlashes(p), comps);
  }

  /** A second relativisation changes nothing, for any path at all. */
  lemma RelativizeIdempotent(w: Roots, p: string)
    requires w.Ok()
    ensures RelativizePath(w, RelativizePath(w, p)) == RelativizePath(w, p)
  {
    if IsAbs(p) && Under(NormPath(w.host), NormPath(p)) {
      hide Join, PushAll, Split, NormPath, RelPath, RelText, CleanParts;
      UnderByComponents(w.host, p);
      RelPathBelow(w.host, p);
      RelTextRelative(Components(p)[|Components(w.host)|..]);
    }
  }

  /** A path under the runtime root, translated to the host and made relative, is its path
      below the runtime root, the same text as for the same place under the host root: except
      below a bare host root, under which the source only finds the root itself. */
  lemma SameSuffixSameText(w: Roots, p: string)
    requires w.Ok() && IsAbs(p) && Under(NormPath(w.runtime), NormPath(p))
    ensures RelativizePath(w, HostAbspath(w, p)) == RelPath(NormPath(p), NormPath(w.runtime))
            <==> Components(w.host) != [] || Components(p) == Components(w.runtime)
    ensures forall q :: (
      IsAbs(q) && Under(NormPath(w.host), NormPath(q)) && RelPath(NormPath(q), NormPath(w.host)) == RelPath(NormPath(p), NormPath(w.runtime))
      ==> (RelativizePath(w, q) == RelativizePath(w, HostAbspath(w, p))
           <==> Components(w.host) != [] || Components(p) == Components(w.runtime)))
  {
    hide Join, PushAll, Split, NormPath, RelPath, Render, RelText, JoinPath, LeadingSlashes, CleanParts, HostAbspath, Under;
    HostOfBelow(w, p);
    var q := HostAbspath(w, p);
    var host, rest := Components(w.host), Components(p)[|Components(w.runtime)|..];
    assert Components(q)[..|host|] == host && Components(q)[|host|..] == rest;
    UnderByComponents(w.host, q);
    SlashesOfAbs(w.host);
    RelPathBelow(w.host, q);
    RelPathBelow(w.runtime, p);
    RelTextRelative(rest);
    NothingBelow(Components(w.runtime), Components(p));
  }

  lemma NothingBelow(a: seq<string>, b: seq<string>)
    requires PrefixOf(a, b)
    ensures b[|a|..] == [] <==> a == b
  {
    assert b == b[..|a|] + b[|a|..];
  }

  // --- translating twice ---

  /** The roots overlap without being the same place: one lies properly below the other, in the
      same of POSIX's two name spaces. A bare / as the runtime root is a case of its own: the
      source finds under it, besides itself, exactly the paths that start with two slashes. */
  predicate Overlap(w: Roots) {
    if Components(w.runtime) == [] then
      LeadingSlashes(w.runtime) == 1 && LeadingSlashes(w.host) == 2 && Components(w.host) != []
    else
      && LeadingSlashes(w.host) == LeadingSlashes(w.runtime) && Components(w.host) != Components(w.runtime)
      && (PrefixOf(Components(w.runtime), Components(w.host)) || PrefixOf(Components(w.host), Components(w.runtime)))
  }

  lemma PrefixesNest(a: seq<string>, b: seq<string>, rest: seq<string>)
    ensures PrefixOf(a, b + rest) ==> PrefixOf(a, b) || PrefixOf(b, a)
  {
    if PrefixOf(a, b + rest) {
      if |a| <= |b| {
        assert b[..|a|] == (b + rest)[..|a|];
      } else {
        assert a[..|b|] == (b + rest)[..|a|][..|b|] == b;
      }
    }
  }

  /** Without overlap, what lies below the host root is under the runtime root only if the two
      roots have the same components. */
  lemma OnlySameRootAgain(w: Roots, rest: seq<string>, q: string)
    requires w.Ok() && !Overlap(w) && IsAbs(q)
    requires LeadingSlashes(q) == LeadingSlashes(w.host) && Components(q) == Components(w.host) + rest
    ensures Under(NormPath(w.runtime), NormPath(q)) ==> Components(w.runtime) == Components(w.host)
  {
    hide Join, PushAll, Split, NormPath, LeadingSlashes, Under;
    UnderByComponents(w.runtime, q);
    PrefixesNest(Components(w.runtime), Components(w.host), rest);
    SlashesOfAbs(w.host);
    SlashesOfAbs(w.runtime);
  }

  lemma TranslateTwice(w: Roots, p: string)
    requires w.Ok() && !Overlap(w) && IsAbs(p)
    ensures HostAbspath(w, HostAbspath(w, p)) == HostAbspath(w, p)
  {
    hide Join, PushAll, Split, NormPath, RelPath, RelText, JoinPath, LeadingSlashes, CleanParts, HostAbspath, Under, Overlap;
    NormalForm(p);
    if !Under(NormPath(w.runtime), NormPath(p)) {
      HostOfOther(w, p);
      HostOfOther(w, NormPath(p));
    } else {
      HostOfBelow(w, p);
      var q, rest := HostAbspath(w, p), Components(p)[|Components(w.runtime)|..];
      OnlySameRootAgain(w, rest, q);
      if Under(NormPath(w.runtime), NormPath(q)) {
        HostOfBelow(w, q);
        assert Components(q)[|Components(w.runtime)|..] == rest;
      } else {
        HostOfOther(w, q);
      }
    }
  }

  /** Where the roots overlap, some path is moved again by a second pass: the runtime root itself
      when the host root is under it, and otherwise the path that lies below the runtime root as
      the runtime root lies below the host root. */
  lemma OverlapMovesTwice(w: Roots) returns (p: string)
    requires w.Ok() && Overlap(w)
    ensures IsAbs(p) && HostAbspath(w, HostAbspath(w, p)) != HostAbspath(w, p)
  {
    hide Join, PushAll, Split, NormPath, RelPath, RelText, JoinPath, LeadingSlashes, CleanParts, HostAbspath, Under;
    var host, runtime := Components(w.host), Components(w.runtime);
    UnderByComponents(w.runtime, w.host);
    NormalForm(w.host);
    NormalForm(w.runtime);
    SlashesOfAbs(w.host);
    SlashesOfAbs(w.runtime);
    RuntimeRootMoves(w);
    if Under(NormPath(w.runtime), NormPath(w.host)) {
      p := NormPath(w.runtime);
      HostOfBelow(w, NormPath(w.host));
      var rest := host[|runtime|..];
      NothingBelow(runtime, host);
      assert |host + rest| > |host|;
    } else {
      var rest := runtime[|host|..];
      assert runtime == host + rest;
      NothingBelow(host, runtime);
      p := Render(LeadingSlashes(w.runtime), runtime + rest);
      CleanConcat(runtime, rest);
      RenderNormal(LeadingSlashes(w.runtime), runtime + rest);
      assert PrefixOf(runtime, runtime + rest);
      UnderByComponents(w.runtime, p);
      HostOfBelow(w, p);
      assert (runtime + rest)[|runtime|..] == rest;
      UnderByComponents(w.runtime, HostAbspath(w, p));
      HostOfBelow(w, HostAbspath(w, p));
      assert |host + runtime[|runtime|..]| < |runtime|;
    }
  }

  lemma CleanConcat(a: seq<string>, rest: seq<string>)
    requires CleanParts(a) && exists host: seq<string> :: a == host + rest
    ensures CleanParts(a + rest)
  {
    var host: seq<string> :| a == host + rest;
    forall i | 0 <= i < |a + rest| ensures CleanPart((a + rest)[i]) {
      if i >= |a| { assert (a + rest)[i] == a[|host| + (i - |a|)]; }
    }
  }

  /** The runtime root itself becomes the host root. */
  lemma RuntimeRootMoves(w: Roots)
    requires w.Ok()
    ensures HostAbspath(w, NormPath(w.runtime)) == NormPath(w.host)
  {
    hide Join, PushAll, Split, NormPath, RelPath, RelText, JoinPath, LeadingSlashes, CleanParts, HostAbspath;
    NormalForm(w.host);
    NormalForm(w.runtime);
    HostOfBelow(w, NormPath(w.runtime));
    assert Components(w.runtime)[|Components(w.runtime)|..] == [];
    assert Components(w.host) + [] == Components(w.host);
  }

  /** Translating twice, as discovery does, is harmless on every absolute path exactly when the
      roots do not overlap, for any two roots. */
  lemma DoubleTranslationHarmless(w: Roots)
    requires w.Ok()
    ensures !Overlap(w) <==> forall p: string :: IsAbs(p) ==> HostAbspath(w, HostAbspath(w, p)) == HostAbspath(w, p)
  {
    hide HostAbspath, Overlap, IsAbs;
    if Overlap(w) {
      var p := OverlapMovesTwice(w);
    } else {
      forall p: string | IsAbs(p) ensures HostAbspath(w, HostAbspath(w, p)) == HostAbspath(w, p) {
        TranslateTwice(w, p);
      }
    }
  }

  /** Discovery of an absolute path: absolutised, then formatted, it is translated twice. */
  lemma DiscoveryTranslatesOnce(w: Roots)
    requires w.Ok()
    ensures !Overlap(w) <==> forall p: string, base: string ::
      IsAbs(p) ==> FormatDiscovered(w, AbsolutizeDiscovered(w, p, base), false, None) == HostAbspath(w, p)
  {
    hide HostAbspath, Overlap;
    DoubleTranslationHarmless(w);
    assert forall p: string, base: string :: IsAbs(p) ==>
      FormatDiscovered(w, AbsolutizeDiscovered(w, p, base), false, None) == HostAbspath(w, HostAbspath(w, p));
    assert forall p: string :: IsAbs(p) ==> FormatDiscovered(w, AbsolutizeDiscovered(w, p, ""), false, None) == HostAbspath(w, HostAbspath(w, p));
  }

  // --- discovered paths ---

  /** Every translated path is absolute and normal. */
  lemma TranslatedIsNormal(w: Roots, p: string)
    requires w.Ok()
    ensures IsAbs(HostAbspath(w, p)) && NormPath(HostAbspath(w, p)) == HostAbspath(w, p)
  {
    hide Join, PushAll, Split, NormPath, RelText, LeadingSlashes, CleanParts, Render, Components, RelPath;
    if IsAbs(p) {
      NormalForm(p);
      if Under(NormPath(w.runtime), NormPath(p)) { HostOfBelow(w, p); }
    } else {
      NormalForm(JoinPath(w.host, p));
    }
  }

  /** A relative text that discovery finds below a base is that text below the base, with its
      dots resolved; an absolute one is translated to the host. */
  lemma AbsolutizedMeans(w: Roots, p: string, base: string)
    requires w.Ok() && IsAbs(base) && p != ""
    ensures IsAbs(p) ==> AbsolutizeDiscovered(w, p, base) == HostAbspath(w, p)
    ensures !IsAbs(p) ==>
      AbsolutizeDiscovered(w, p, base) == Render(LeadingSlashes(base), PushAll(Components(base), Split(p), true))
  {
    hide Join, PushAll, Split, Render, LeadingSlashes, CleanParts;
    if !IsAbs(p) {
      JoinedComponents(base, p);
      JoinKeepsSlashes(base, p);
      NormalForm(JoinPath(base, p));
    }
  }

  /** What is shown of a discovered path: the translated path itself, or, when relative paths are
      asked for and it lies under the root, the way from the root down to it, which leads from
      the root to the path again. Without a root of its own that is the workspace-relative path. */
  lemma FormattedLeadsBack(w: Roots, p: string, relativeTo: Option<string>)
    requires w.Ok()
    ensures FormatDiscovered(w, p, false, relativeTo) == HostAbspath(w, p)
    ensures var q, root, shown := HostAbspath(w, p), FormatRoot(w, relativeTo), FormatDiscovered(w, p, true, relativeTo);
      && (!Under(root, q) ==> shown == q)
      && (Under(root, q) ==>
            && !IsAbs(shown) && PrefixOf(Components(root), Components(q))
            && shown == RelText(Components(q)[|Components(root)|..])
            && NormPath(JoinPath(root, shown)) == Render(LeadingSlashes(root), Components(q)))
    ensures FormatDiscovered(w, p, true, None) == RelativizePath(w, HostAbspath(w, p))
  {
    hide Join, PushAll, Split, NormPath, LeadingSlashes, CleanParts, Render, HostAbspath, RelPath, RelText;
    var q, root := HostAbspath(w, p), FormatRoot(w, relativeTo);
    TranslatedIsNormal(w, p);
    if relativeTo.Some? { TranslatedIsNormal(w, relativeTo.value); } else { NormalForm(w.host); }
    if Under(root, q) {
      UnderByComponents(root, q);
      RelPathBelow(root, q);
      RelPathLeadsBack(q, root);
    }
  }

  /** Without overlap a normal path below the host root is where it is. */
  lemma BelowHostStays(w: Roots, q: string)
    requires w.Ok() && !Overlap(w) && IsAbs(q) && NormPath(q) == q
    requires LeadingSlashes(q) == LeadingSlashes(w.host) && PrefixOf(Components(w.host), Components(q))
    ensures HostAbspath(w, q) == q
  {
    hide Join, PushAll, Split, NormPath, RelPath, RelText, JoinPath, LeadingSlashes, CleanParts, HostAbspath, Under, Overlap;
    var rest := Components(q)[|Components(w.host)|..];
    assert Components(q) == Components(w.host) + rest;
    OnlySameRootAgain(w, rest, q);
    NormalForm(q);
    if Under(NormPath(w.runtime), NormPath(q)) {
      HostOfBelow(w, q);
    } else {
      HostOfOther(w, q);
    }
  }

  /** Discovery below a base under the host root: with roots that do not overlap, what is found as
      a relative text below the base is shown as that text relative to the base. */
  lemma DiscoveryRoundTrip(w: Roots, base: string, rest: seq<string>)
    requires w.Ok() && !Overlap(w) && CleanParts(rest)
    requires IsAbs(base) && NormPath(base) == base && Components(base) != []
    requires LeadingSlashes(base) == LeadingSlashes(w.host) && PrefixOf(Components(w.host), Components(base))
    ensures FormatDiscovered(w, AbsolutizeDiscovered(w, RelText(rest), base), true, Some(base)) == RelText(rest)
  {
    hide Join, PushAll, Split, NormPath, RelPath, RelText, JoinPath, LeadingSlashes, CleanParts, HostAbspath, Under, Overlap;
    var found := AbsolutizeDiscovered(w, RelText(rest), base);
    RelTextRelative(rest);
    NormJoin(base, rest);
    SlashesOfAbs(base);
    RenderNormal(LeadingSlashes(base), Components(base) + rest);
    assert found == Render(LeadingSlashes(base), Components(base) + rest);
    assert (Components(base) + rest)[|Components(base)|..] == rest && PrefixOf(Components(base), Components(found));
    PrefixGrows(Components(w.host), Components(base), rest);
    BelowHostStays(w, base);
    BelowHostStays(w, found);
    UnderByComponents(base, found);
    FormattedLeadsBack(w, found, Some(base));
  }

  lemma PrefixGrows(a: seq<string>, b: seq<string>, rest: seq<string>)
    requires PrefixOf(a, b)
    ensures PrefixOf(a, b + rest)
  {
    assert (b + rest)[..|a|] == b[..|a|];
  }
}
