/** Collecting response and file handles from nested values, in TypeScript and in Python. The
    two walk the same way and differ in what their trim calls white space. */
module Handles {
  import opened Text
  import opened JsonText

  datatype Handle = Response(responseId: string) | File(filePath: string) {
    function Id(): string {
      if Response? then responseId else filePath
    }

    function WithId(id: string): Handle {
      if Response? then Response(id) else File(id)
    }
  }

  /** The string that the seen set holds for a handle. */
  function Key(h: Handle): string {
    if h.Response? then "response:" + h.responseId else "file:" + h.filePath
  }

  /** Keys never confuse two handles, of the same or of different kinds. */
  lemma KeyInjective(g: Handle, h: Handle)
    requires Key(g) == Key(h)
    ensures g == h
  {
    assert Key(g)[0] == if g.Response? then 'r' else 'f';
    assert Key(h)[0] == if h.Response? then 'r' else 'f';
    if g.Response? {
      assert Key(g)[9..] == g.responseId && Key(h)[9..] == h.responseId;
    } else {
      assert Key(g)[5..] == g.filePath && Key(h)[5..] == h.filePath;
    }
  }

  // --- what is collected, before trimming and deduplication ---

  function Lookup(fields: seq<Field>, key: string): Json {
    if fields == [] then Null else if fields[0].key == key then fields[0].value else Lookup(fields[1..], key)
  }

  /** The handles that an object names itself. */
  function OwnHandles(fields: seq<Field>): seq<Handle> {
    var r, f := Lookup(fields, "responseId"), Lookup(fields, "filePath");
    (if r.Str? then [Response(r.s)] else []) + (if f.Str? then [File(f.s)] else [])
  }

  /** All handles of a value as they stand, an object's own before those of its members. */
  function Preorder(v: Json): seq<Handle>
    decreases v, 1
  {
    match v
    case Arr(items) => PreorderItems(items)
    case Obj(fields) => OwnHandles(fields) + PreorderFields(fields)
    case _ => []
  }

  function PreorderItems(items: seq<Json>): seq<Handle>
    decreases items, 0
  {
    if items == [] then [] else Preorder(items[0]) + PreorderItems(items[1..])
  }

  function PreorderFields(fields: seq<Field>): seq<Handle>
    decreases fields, 0
  {
    if fields == [] then [] else Preorder(fields[0].value) + PreorderFields(fields[1..])
  }

  // --- trimming and first-occurrence deduplication ---

  /** One push: trim, skip the empty, skip the seen. */
  function PushOne(space: char -> bool, collected: seq<Handle>, h: Handle): seq<Handle> {
    var trimmed := h.WithId(Trim(space, h.Id()));
    if trimmed.Id() == "" || trimmed in collected then collected else collected + [trimmed]
  }

  function PushAll(space: char -> bool, collected: seq<Handle>, hs: seq<Handle>): seq<Handle>
    decreases |hs|
  {
    if hs == [] then collected else PushAll(space, PushOne(space, collected, hs[0]), hs[1..])
  }

  function Collected(space: char -> bool, v: Json): seq<Handle> {
    PushAll(space, [], Preorder(v))
  }

  lemma {:induction false} PushAllConcat(space: char -> bool, collected: seq<Handle>, a: seq<Handle>, b: seq<Handle>)
    ensures PushAll(space, collected, a + b) == PushAll(space, PushAll(space, collected, a), b)
    decreases |a|
  {
    hide PushOne;
    if a == [] {
      assert a + b == b;
    } else {
      assert (a + b)[1..] == a[1..] + b;
      PushAllConcat(space, PushOne(space, collected, a[0]), a[1..], b);
    }
  }

  // --- the collector, with its list and its set updated in place ---

  class Collector {
    var handles: seq<Handle>
    var seen: set<string>
    const space: char -> bool

    ghost predicate Valid()
      reads this
    {
      seen == set h | h in handles :: Key(h)
    }

    constructor (space: char -> bool)
      ensures Valid() && handles == [] && this.space == space
    {
      handles, seen, this.space := [], {}, space;
    }

    method Push(h: Handle)
      requires Valid()
      modifies this
      ensures Valid() && handles == PushOne(space, old(handles), h)
    {
      hide Key, Trim;
      var normalized := h.WithId(Trim(space, h.Id()));
      if normalized.Id() == "" {
        return;
      }
      var key := Key(normalized);
      if key in seen {
        var g :| g in handles && Key(g) == key;
        KeyInjective(g, normalized);
        return;
      }
      seen := seen + {key};
      handles := handles + [normalized];
      assert forall h :: h in handles <==> h in old(handles) || h == normalized;
    }

    /** collectSupportedHandles and _collect_supported_handles. */
    method Collect(v: Json)
      requires Valid()
      modifies this
      ensures Valid() && handles == PushAll(space, old(handles), Preorder(v))
      decreases v, 1
    {
      hide PushOne, OwnHandles;
      match v {
        case Arr(items) =>
          for i := 0 to |items|
            invariant Valid() && PushAll(space, handles, PreorderItems(items[i..])) == PushAll(space, old(handles), PreorderItems(items))
          {
            PushAllConcat(space, handles, Preorder(items[i]), PreorderItems(items[i + 1..]));
            assert items[i..][1..] == items[i + 1..];
            Collect(items[i]);
          }
        case Obj(fields) =>
          PushAllConcat(space, handles, OwnHandles(fields), PreorderFields(fields));
          PushOwn(fields);
          ghost var own := handles;
          for i := 0 to |fields|
            invariant Valid() && PushAll(space, handles, PreorderFields(fields[i..])) == PushAll(space, own, PreorderFields(fields))
          {
            PushAllConcat(space, handles, Preorder(fields[i].value), PreorderFields(fields[i + 1..]));
            assert fields[i..][1..] == fields[i + 1..];
            Collect(fields[i].value);
          }
        case _ =>
      }
    }

    method PushOwn(fields: seq<Field>)
      requires Valid()
      modifies this
      ensures Valid() && handles == PushAll(space, old(handles), OwnHandles(fields))
    {
      hide PushOne;
      var r := Lookup(fields, "responseId");
      var own: seq<Handle> := [];
      if r.Str? {
        Push(Response(r.s));
        own := [Response(r.s)];
      }
      PushAllOne(space, old(handles), own);
      ghost var before := handles;
      var f := Lookup(fields, "filePath");
      if f.Str? {
        Push(File(f.s));
        PushAllConcat(space, old(handles), own, [File(f.s)]);
        PushAllOne(space, before, [File(f.s)]);
      } else {
        assert own + [] == own;
      }
    }
  }

  lemma PushAllOne(space: char -> bool, collected: seq<Handle>, hs: seq<Handle>)
    requires |hs| <= 1
    ensures PushAll(space, collected, hs) == if hs == [] then collected else PushOne(space, collected, hs[0])
  {
    hide PushOne;
    if hs != [] { assert hs[1..] == []; }
  }

  // --- what the result is ---

  function Trimmed(space: char -> bool, h: Handle): Handle {
    h.WithId(Trim(space, h.Id()))
  }

  /** Trimming keeps the kind of a handle and trims its text. */
  lemma TrimmedKeepsKind(space: char -> bool, h: Handle)
    ensures h.Response? ==> Trimmed(space, h) == Response(Trim(space, h.responseId))
    ensures h.File? ==> Trimmed(space, h) == File(Trim(space, h.filePath))
  {
  }

  predicate NoDuplicates(hs: seq<Handle>) {
    forall i, j :: 0 <= i < j < |hs| ==> hs[i] != hs[j]
  }

  /** The trimmed handles in order of first occurrence: no duplicates; exactly the non-empty
      trimmed handles of the input; and each is new where it stands. */
  lemma {:induction false} PushAllIsDedup(space: char -> bool, collected: seq<Handle>, hs: seq<Handle>)
    requires NoDuplicates(collected)
    ensures var r := PushAll(space, collected, hs);
      && collected <= r && NoDuplicates(r)
      && (forall h :: h in r <==> h in collected || (h.Id() != "" && exists k :: 0 <= k < |hs| && Trimmed(space, hs[k]) == h))
    decreases |hs|
  {
    hide Trim;
    if hs != [] {
      var next := PushOne(space, collected, hs[0]);
      var first := Trimmed(space, hs[0]);
      PushAllIsDedup(space, next, hs[1..]);
      var r := PushAll(space, collected, hs);
      forall h ensures h in r <==> h in collected || (h.Id() != "" && exists k :: 0 <= k < |hs| && Trimmed(space, hs[k]) == h) {
        SplitOccurrence(space, hs, h);
        assert h in next <==> h in collected || (h.Id() != "" && h == first);
      }
    }
  }

  lemma SplitOccurrence(space: char -> bool, hs: seq<Handle>, h: Handle)
    requires hs != []
    ensures (exists k :: 0 <= k < |hs| && Trimmed(space, hs[k]) == h)
       <==> Trimmed(space, hs[0]) == h || exists k :: 0 <= k < |hs[1..]| && Trimmed(space, hs[1..][k]) == h
  {
    hide Trimmed;
    if k :| 0 <= k < |hs| && Trimmed(space, hs[k]) == h {
      if k > 0 { assert hs[1..][k - 1] == hs[k]; }
    }
    if k :| 0 <= k < |hs[1..]| && Trimmed(space, hs[1..][k]) == h {
      assert hs[k + 1] == hs[1..][k];
    }
  }

  /** What comes first in the walk comes first in the result. */
  lemma CollectedPrefix(space: char -> bool, a: seq<Handle>, b: seq<Handle>)
    ensures PushAll(space, [], a) <= PushAll(space, [], a + b)
  {
    PushAllConcat(space, [], a, b);
    PushAllIsDedup(space, [], a);
    PushAllIsDedup(space, PushAll(space, [], a), b);
  }

  // --- TypeScript and Python ---

  predicate IsEitherSpace(c: char) {
    IsJsSpace(c) || IsPySpace(c)
  }

  /** The characters around the core of a string, up to which either side might trim, are
      white space for both sides: none of them is U+001C to U+001F, U+0085 or U+FEFF. */
  predicate SameEnds(s: string) {
    && (forall i :: 0 <= i < |LeftRun(IsEitherSpace, s)| ==>
          IsJsSpace(LeftRun(IsEitherSpace, s)[i]) && IsPySpace(LeftRun(IsEitherSpace, s)[i]))
    && (forall i :: 0 <= i < |RightRun(IsEitherSpace, s)| ==>
          IsJsSpace(RightRun(IsEitherSpace, s)[i]) && IsPySpace(RightRun(IsEitherSpace, s)[i]))
  }

  /** Two trims whose cores are clean for both agree. */
  lemma CleanCoresAgree(js: char -> bool, py: char -> bool, s: string)
    requires Trim(js, s) != "" ==> Clean(py, Trim(js, s))
    requires Trim(py, s) != "" ==> Clean(js, Trim(py, s))
    ensures Trim(js, s) == Trim(py, s)
    ensures Trim(js, s) != "" ==> LeftRun(js, s) == LeftRun(py, s) && RightRun(js, s) == RightRun(py, s)
  {
    hide Trim, LeftRun, RightRun;
    TrimSplit(js, s);
    TrimSplit(py, s);
    SameCore(js, py, LeftRun(js, s), Trim(js, s), RightRun(js, s), LeftRun(py, s), Trim(py, s), RightRun(py, s));
  }

  /** The first and the last character that no side trims stand in one place only. */
  lemma SameCore(js: char -> bool, py: char -> bool, lj: string, cj: string, rj: string, lp: string, cp: string, rp: string)
    requires lj + cj + rj == lp + cp + rp
    requires (forall i :: 0 <= i < |lj| ==> js(lj[i])) && (forall i :: 0 <= i < |rj| ==> js(rj[i]))
    requires (forall i :: 0 <= i < |lp| ==> py(lp[i])) && (forall i :: 0 <= i < |rp| ==> py(rp[i]))
    requires Clean(js, cj) && Clean(py, cp) && Clean(py, cj) && Clean(js, cp)
    ensures cj == cp
    ensures cj != "" ==> lj == lp && rj == rp
  {
    var s := lj + cj + rj;
    assert cj != "" ==> s[|lj|] == cj[0] && s[|lj| + |cj| - 1] == cj[|cj| - 1];
    assert cp != "" ==> s[|lp|] == cp[0] && s[|lp| + |cp| - 1] == cp[|cp| - 1];
    assert forall i :: 0 <= i < |lj| ==> s[i] == lj[i];
    assert forall i :: 0 <= i < |lp| ==> s[i] == lp[i];
    assert forall i :: |lj| + |cj| <= i < |s| ==> s[i] == rj[i - |lj| - |cj|];
    assert forall i :: |lp| + |cp| <= i < |s| ==> s[i] == rp[i - |lp| - |cp|];
    if cj != "" && cp != "" {
      assert |lj| == |lp| && |lj| + |cj| == |lp| + |cp|;
      assert s[|lj|..|lj| + |cj|] == cj && s[|lp|..|lp| + |cp|] == cp;
      assert s[..|lj|] == lj && s[..|lp|] == lp;
      assert s[|lj| + |cj|..] == rj && s[|lp| + |cp|..] == rp;
    }
  }

  lemma EitherClean(s: string)
    ensures Clean(IsEitherSpace, s) <==> Clean(IsJsSpace, s) && Clean(IsPySpace, s)
  {
    hide IsJsSpace, IsPySpace;
  }

  lemma EitherOf(c: char)
    ensures IsJsSpace(c) || IsPySpace(c) <==> IsEitherSpace(c)
  {
    hide IsJsSpace, IsPySpace;
  }

  /** trim and strip agree on a string exactly when its ends hold no character that only one
      of them treats as white space. */
  lemma TrimsAgree(s: string)
    ensures Trim(IsJsSpace, s) == Trim(IsPySpace, s) <==> SameEnds(s)
  {
    hide Trim, IsJsSpace, IsPySpace, LeftRun, RightRun, IsEitherSpace, Clean;
    var left, right := LeftRun(IsEitherSpace, s), RightRun(IsEitherSpace, s);
    TrimSplit(IsEitherSpace, s);
    if SameEnds(s) {
      var core := Trim(IsEitherSpace, s);
      EitherClean(core);
      TrimUnique(IsJsSpace, left, core, right);
      TrimUnique(IsPySpace, left, core, right);
    }
    if Trim(IsJsSpace, s) == Trim(IsPySpace, s) {
      AgreeingEnds(s);
    }
  }

  lemma AgreeingEnds(s: string)
    requires Trim(IsJsSpace, s) == Trim(IsPySpace, s)
    ensures SameEnds(s)
  {
    hide Trim, IsJsSpace, IsPySpace, LeftRun, RightRun, IsEitherSpace, Clean;
    var core := Trim(IsJsSpace, s);
    EitherClean(core);
    CleanCoresAgree(IsJsSpace, IsPySpace, s);
    TrimSplit(IsJsSpace, s);
    TrimSplit(IsPySpace, s);
    if core != "" {
      var left, right := LeftRun(IsJsSpace, s), RightRun(IsJsSpace, s);
      forall i | 0 <= i < |left| ensures IsEitherSpace(left[i]) { EitherOf(left[i]); }
      forall i | 0 <= i < |right| ensures IsEitherSpace(right[i]) { EitherOf(right[i]); }
      RunsOfSplit(IsEitherSpace, left, core, right);
    } else {
      AllSpace(IsJsSpace, s);
      AllSpace(IsPySpace, s);
      forall i | 0 <= i < |s| ensures IsEitherSpace(s[i]) { EitherOf(s[i]); }
      assert s == s + "";
      DropLeftRun(IsEitherSpace, s, "");
      RunsOfBlank(IsEitherSpace, s);
    }
  }

  lemma AllSpace(space: char -> bool, s: string)
    requires Trim(space, s) == ""
    ensures forall i :: 0 <= i < |s| ==> space(s[i])
  {
    hide Trim, LeftRun, RightRun;
    TrimSplit(space, s);
    assert s == LeftRun(space, s) + RightRun(space, s);
  }

  lemma RunsOfSplit(space: char -> bool, left: string, core: string, right: string)
    requires core != "" && Clean(space, core)
    requires (forall i :: 0 <= i < |left| ==> space(left[i])) && (forall i :: 0 <= i < |right| ==> space(right[i]))
    ensures LeftRun(space, left + core + right) == left && RightRun(space, left + core + right) == right
  {
    hide DropLeft, DropRight;
    assert left + core + right == left + (core + right);
    DropLeftRun(space, left, core + right);
    DropRightRun(space, core, right);
  }

  lemma RunsOfBlank(space: char -> bool, s: string)
    requires DropLeft(space, s) == ""
    ensures LeftRun(space, s) == s && RightRun(space, s) == ""
  {
  }

  /** Where the two differ, one side's result still has what the other trims at an end. */
  lemma DifferenceShows(s: string)
    requires Trim(IsJsSpace, s) != Trim(IsPySpace, s)
    ensures (Trim(IsJsSpace, s) != "" && !Clean(IsPySpace, Trim(IsJsSpace, s)))
         || (Trim(IsPySpace, s) != "" && !Clean(IsJsSpace, Trim(IsPySpace, s)))
  {
    hide Trim, IsJsSpace, IsPySpace, Clean;
    if (Trim(IsJsSpace, s) == "" || Clean(IsPySpace, Trim(IsJsSpace, s)))
       && (Trim(IsPySpace, s) == "" || Clean(IsJsSpace, Trim(IsPySpace, s))) {
      CleanCoresAgree(IsJsSpace, IsPySpace, s);
    }
  }

  lemma {:induction false} PushAllSame(collected: seq<Handle>, hs: seq<Handle>)
    requires forall k :: 0 <= k < |hs| ==> Trim(IsJsSpace, hs[k].Id()) == Trim(IsPySpace, hs[k].Id())
    ensures PushAll(IsJsSpace, collected, hs) == PushAll(IsPySpace, collected, hs)
    decreases |hs|
  {
    hide Trim, IsJsSpace, IsPySpace;
    if hs != [] {
      PushAllSame(PushOne(IsJsSpace, collected, hs[0]), hs[1..]);
    }
  }

  /** Every handle collected is clean on the side that collected it. */
  lemma CollectedClean(space: char -> bool, hs: seq<Handle>, h: Handle)
    requires h in PushAll(space, [], hs)
    ensures Clean(space, h.Id())
  {
    hide Trim;
    PushAllIsDedup(space, [], hs);
    var k :| 0 <= k < |hs| && Trimmed(space, hs[k]) == h;
  }

  lemma CollectedHolds(space: char -> bool, hs: seq<Handle>, k: nat)
    requires k < |hs| && Trim(space, hs[k].Id()) != ""
    ensures Trimmed(space, hs[k]) in PushAll(space, [], hs)
  {
    hide Trim;
    PushAllIsDedup(space, [], hs);
  }

  lemma DifferentTrimDiffers(hs: seq<Handle>, k: nat)
    requires k < |hs| && Trim(IsJsSpace, hs[k].Id()) != Trim(IsPySpace, hs[k].Id())
    ensures PushAll(IsJsSpace, [], hs) != PushAll(IsPySpace, [], hs)
  {
    hide Trim, IsJsSpace, IsPySpace, Clean, PushAll;
    var s := hs[k].Id();
    DifferenceShows(s);
    if Trim(IsJsSpace, s) != "" && !Clean(IsPySpace, Trim(IsJsSpace, s)) {
      CollectedHolds(IsJsSpace, hs, k);
      if Trimmed(IsJsSpace, hs[k]) in PushAll(IsPySpace, [], hs) {
        CollectedClean(IsPySpace, hs, Trimmed(IsJsSpace, hs[k]));
      }
    } else {
      CollectedHolds(IsPySpace, hs, k);
      if Trimmed(IsPySpace, hs[k]) in PushAll(IsJsSpace, [], hs) {
        CollectedClean(IsJsSpace, hs, Trimmed(IsPySpace, hs[k]));
      }
    }
  }

  predicate AllSameEnds(hs: seq<Handle>) {
    forall k :: 0 <= k < |hs| ==> SameEnds(hs[k].Id())
  }

  lemma SameEndsDecide(hs: seq<Handle>)
    ensures PushAll(IsJsSpace, [], hs) == PushAll(IsPySpace, [], hs) <==> AllSameEnds(hs)
  {
    hide SameEnds, PushAll, Trim, IsJsSpace, IsPySpace;
    forall k | 0 <= k < |hs|
      ensures SameEnds(hs[k].Id()) <==> Trim(IsJsSpace, hs[k].Id()) == Trim(IsPySpace, hs[k].Id())
    {
      TrimsAgree(hs[k].Id());
    }
    if AllSameEnds(hs) {
      PushAllSame([], hs);
    } else {
      var k :| 0 <= k < |hs| && !SameEnds(hs[k].Id());
      DifferentTrimDiffers(hs, k);
    }
  }

  /** TypeScript and Python collect the same handles from a value exactly when no handle in it
      has, at its ends, a character that only one of them trims. */
  lemma TypeScriptAndPythonAgree(v: Json)
    ensures Collected(IsJsSpace, v) == Collected(IsPySpace, v) <==> AllSameEnds(Preorder(v))
  {
    SameEndsDecide(Preorder(v));
  }

  /** A file separator in front of an id is kept by one side and dropped by the other. */
  lemma DisagreementExample()
    ensures var v := Obj([Field("responseId", Str([0x1C as char, 'x']))]);
      Collected(IsJsSpace, v) != Collected(IsPySpace, v)
  {
    var id := [0x1C as char, 'x'];
    var fields := [Field("responseId", Str(id))];
    SeparatorIsPySpace();
    hide IsJsSpace, IsPySpace, Trim, PushAll, Preorder;
    SingleHandle(fields, id);
    TrimClean(IsJsSpace, id);
    TrimUnique(IsPySpace, [0x1C as char], ['x'], []);
    assert [0x1C as char] + ['x'] + [] == id;
    DifferentTrimDiffers([Response(id)], 0);
  }

  lemma SeparatorIsPySpace()
    ensures IsPySpace(0x1C as char) && !IsJsSpace(0x1C as char) && !IsPySpace('x') && !IsJsSpace('x')
  {
  }

  lemma SingleHandle(fields: seq<Field>, id: string)
    requires fields == [Field("responseId", Str(id))]
    ensures Preorder(Obj(fields)) == [Response(id)]
  {
    assert fields[1..] == [];
    assert PreorderFields(fields) == [];
    assert Lookup(fields, "responseId") == Str(id);
    assert Lookup(fields, "filePath") == Null;
  }
}
