/** fit_output: limits, the result dict, and the loop that shrinks it to a character budget. */
module FitOutput {
  import opened Wrappers
  import opened Numerals
  import opened JsonText
  import opened Compaction

  datatype Result<T> = Ok(value: T) | ValueError(message: string)

  // --- limits ---

  /** A Python argument where an int is expected. */
  datatype Arg = NoneArg | BoolArg | IntArg(n: int) | OtherArg(typeName: string)

  function NormalizePositiveInt(name: string, value: Arg, default: int): Result<int> {
    match value
    case NoneArg => Ok(default)
    case BoolArg => ValueError(name + " must be a positive integer (got bool)")
    case OtherArg(t) => ValueError(name + " must be a positive integer (got " + t + ")")
    case IntArg(n) => if n < 1 then ValueError(name + " must be a positive integer") else Ok(n)
  }

  function NormalizeLimits(maxChars: Arg, maxItems: Arg, maxDepth: Arg, session: int): (r: Result<Limits>)
    ensures r.Ok? ==> r.value.Ok()
  {
    var defaultChars := Max(1, session);
    match NormalizePositiveInt("max_chars", maxChars, defaultChars)
    case ValueError(m) => ValueError(m)
    case Ok(chars) =>
      match NormalizePositiveInt("max_items", maxItems, 10)
      case ValueError(m) => ValueError(m)
      case Ok(items) =>
        match NormalizePositiveInt("max_depth", maxDepth, 3)
        case ValueError(m) => ValueError(m)
        case Ok(depth) => Ok(Limits(if chars < defaultChars then chars else defaultChars, items, depth))
  }

  predicate AcceptableLimit(a: Arg) {
    a.NoneArg? || (a.IntArg? && a.n >= 1)
  }

  /** Limits are accepted exactly when each argument is absent or a positive int; they are
      positive, and the character limit never exceeds the session's. */
  lemma LimitsClamped(maxChars: Arg, maxItems: Arg, maxDepth: Arg, session: int)
    ensures NormalizeLimits(maxChars, maxItems, maxDepth, session).Ok?
       <==> AcceptableLimit(maxChars) && AcceptableLimit(maxItems) && AcceptableLimit(maxDepth)
    ensures NormalizeLimits(maxChars, maxItems, maxDepth, session).Ok? ==>
      var lim := NormalizeLimits(maxChars, maxItems, maxDepth, session).value;
      lim.Ok() && lim.maxDepth >= 1 && lim.maxChars <= Max(1, session)
  {
  }

  /** Each limit is the caller's or the default, the characters also capped by the session; a
      refusal names the first argument that is neither absent nor a positive int. */
  lemma LimitsChosen(maxChars: Arg, maxItems: Arg, maxDepth: Arg, session: int)
    ensures match NormalizeLimits(maxChars, maxItems, maxDepth, session)
      case Ok(lim) =>
        && (maxChars.IntArg? && maxChars.n <= session ==> lim.maxChars == maxChars.n)
        && (maxChars.NoneArg? || maxChars.n > session ==> lim.maxChars == if session >= 1 then session else 1)
        && (maxItems.IntArg? ==> lim.maxItems == maxItems.n) && (maxItems.NoneArg? ==> lim.maxItems == 10)
        && (maxDepth.IntArg? ==> lim.maxDepth == maxDepth.n) && (maxDepth.NoneArg? ==> lim.maxDepth == 3)
      case ValueError(message) =>
        if !AcceptableLimit(maxChars) then "max_chars" <= message
        else if !AcceptableLimit(maxItems) then "max_items" <= message
        else !AcceptableLimit(maxDepth) && "max_depth" <= message
  {
    Refusal("max_chars", maxChars, Max(1, session));
    Refusal("max_items", maxItems, 10);
    Refusal("max_depth", maxDepth, 3);
    hide NormalizePositiveInt;
  }

  lemma Refusal(name: string, value: Arg, default: int)
    ensures match NormalizePositiveInt(name, value, default)
      case Ok(n) => AcceptableLimit(value) && n == if value.IntArg? then value.n else default
      case ValueError(message) => !AcceptableLimit(value) && name <= message
  {
  }

  // --- the result dict ---

  datatype FitStats = FitStats(originalChars: nat, previewChars: nat, omittedItems: nat, omittedKeys: nat,
                               depthLimited: bool, previewIsText: bool)

  /** The three shapes that the result can take. */
  datatype FitResult =
    | Full(originalKind: string, preview: Json, truncated: bool, limits: Limits, stats: FitStats)
    | Minimal(originalKind: string)
    | LastResort

  const KIND := Field("kind", Str("fit_output"))

  function LimitsJson(lim: Limits): Json {
    Obj([Field("maxChars", Int(lim.maxChars)), Field("maxItems", Int(lim.maxItems)), Field("maxDepth", Int(lim.maxDepth))])
  }

  function StatsJson(s: FitStats): Json {
    Obj([Field("originalChars", Int(s.originalChars)), Field("previewChars", Int(s.previewChars)),
         Field("omittedItems", Int(s.omittedItems)), Field("omittedKeys", Int(s.omittedKeys)),
         Field("depthLimited", Bool(s.depthLimited))]
        + if s.previewIsText then [Field("previewKind", Str("text"))] else [])
  }

  /** The dict that the runtime builds, members in the order of their insertion. */
  function ToJson(r: FitResult): Json {
    match r
    case Full(originalKind, preview, truncated, limits, stats) =>
      Obj([KIND, Field("originalKind", Str(originalKind)), Field("preview", preview),
           Field("truncated", Bool(truncated)), Field("limits", LimitsJson(limits)), Field("stats", StatsJson(stats))])
    case Minimal(originalKind) =>
      Obj([KIND, Field("originalKind", Str(originalKind)), Field("preview", Str("...")), Field("truncated", Bool(true))])
    case LastResort =>
      Obj([KIND, Field("truncated", Bool(true))])
  }

  function MeasureJsonChars(v: Json): nat {
    |Dumps(Indented, v, 0)|
  }

  function Measure(r: FitResult): nat {
    MeasureJsonChars(ToJson(r))
  }

  // --- how the printed length depends on the preview text ---

  /** A full result whose preview is the text p, with its length recorded. */
  function WithText(r: FitResult, p: string): FitResult
    requires r.Full?
  {
    r.(preview := Str(p), truncated := true, stats := r.stats.(previewChars := |p|, previewIsText := true))
  }

  /** All of the printout except the preview text and its length. */
  function Frame(r: FitResult): nat
    requires r.Full?
  {
    |Dumps(Indented, ToJson(WithText(r, "")), 0)| - 1
  }

  lemma FieldsSizeAt(fields: seq<Field>, i: nat, level: nat)
    requires i < |fields|
    ensures FieldsSize(fields, level) == FieldsSize(fields[..i], level) + FieldSize(fields[i], level) + FieldsSize(fields[i + 1..], level)
  {
    assert fields == fields[..i] + fields[i..];
    FieldsSizeConcat(fields[..i], fields[i..], level);
    assert fields[i..][1..] == fields[i + 1..];
  }

  /** Two dicts that differ in the value of one member differ in length by that value's. */
  lemma ReplaceMember(a: seq<Field>, b: seq<Field>, i: nat, level: nat)
    requires i < |a| == |b| && b == a[i := b[i]] && a[i].key == b[i].key
    ensures Size(Obj(a), level) + Size(b[i].value, level + 1) == Size(Obj(b), level) + Size(a[i].value, level + 1)
  {
    FieldsSizeAt(a, i, level + 1);
    FieldsSizeAt(b, i, level + 1);
    assert a[..i] == b[..i] && a[i + 1..] == b[i + 1..];
  }

  lemma ReplaceTextAndLength(fa: seq<Field>, fb: seq<Field>, sa: seq<Field>, sb: seq<Field>, p: string)
    requires |fa| == |fb| == 6 && |sa| == |sb| >= 2
    requires fa[5] == Field(fb[5].key, Obj(sa)) && fb[5].value == Obj(sb)
    requires fa[2] == Field(fb[2].key, Str("")) && fb[2].value == Str(p)
    requires sa[1] == Field(sb[1].key, Int(0)) && sb[1].value == Int(|p|)
    requires fb == fa[5 := fb[5]][2 := fb[2]] && sb == sa[1 := sb[1]]
    ensures Size(Obj(fb), 0) == Size(Obj(fa), 0) + |Escape(p)| + DigitCount(|p|) - 1
  {
    var fm := fa[5 := fb[5]];
    ReplaceMember(fa, fm, 5, 0);
    ReplaceMember(sa, sb, 1, 1);
    ReplaceMember(fm, fb, 2, 0);
  }

  /** Each character of text costs its escaped length; the recorded length costs its digits. */
  lemma MeasureText(r: FitResult, p: string)
    requires r.Full?
    ensures Measure(WithText(r, p)) == Frame(r) + |Escape(p)| + DigitCount(|p|)
  {
    hide Dumps, Size, Escape;
    var a, b := WithText(r, ""), WithText(r, p);
    DumpsLength(ToJson(a), 0);
    DumpsLength(ToJson(b), 0);
    ReplaceTextAndLength(ToJson(a).fields, ToJson(b).fields, StatsJson(a.stats).fields, StatsJson(b.stats).fields, p);
  }

  // --- the shrink loop ---

  /** What one pass of the loop keeps of a text that is too long. */
  function ShrinkText(p: string, overflow: nat): string
    requires |p| > 4
  {
    var shrinkBy := Max(overflow + 3, 8);
    p[..Max(1, |p| - shrinkBy)] + "..."
  }

  lemma EscapeDots()
    ensures Escape("...") == "..."
  {
    assert "..."[1..] == ".." && ".."[1..] == "." && "."[1..] == "";
  }

  /** After one pass either the whole result fits or only four characters of preview are left:
      cutting n characters saves at least n, and a shorter text never needs more digits. */
  lemma OnePassSuffices(r: FitResult, p: string, maxChars: nat)
    requires r.Full? && |p| > 4 && Measure(WithText(r, p)) > maxChars
    ensures var q := ShrinkText(p, Measure(WithText(r, p)) - maxChars);
      |q| < |p| && (|q| == 4 || Measure(WithText(r, q)) <= maxChars)
  {
    hide MeasureJsonChars, Frame, Escape, ToJson;
    var overflow := Measure(WithText(r, p)) - maxChars;
    var q := ShrinkText(p, overflow);
    var cut := Max(overflow + 3, 8);
    if |p| - cut >= 1 {
      var kept, gone := p[..|p| - cut], p[|p| - cut..];
      assert p == kept + gone;
      EscapeConcat(kept, gone);
      EscapeConcat(kept, "...");
      EscapeDots();
      MeasureText(r, p);
      MeasureText(r, q);
      DigitCountMonotone(|q|, |p|);
    }
  }

  /** The closed form of _fit_result_to_char_budget. */
  function FitToBudget(r: FitResult, maxChars: nat): FitResult
    requires r.Full?
  {
    if Measure(r) <= maxChars then r
    else
      var text := Dumps(Compact, r.preview, 0);
      var whole := WithText(r, text);
      var cut := if Measure(whole) > maxChars && |text| > 4
                 then WithText(r, ShrinkText(text, Measure(whole) - maxChars)) else whole;
      if Measure(cut) <= maxChars then cut
      else if Measure(Minimal(r.originalKind)) <= maxChars then Minimal(r.originalKind)
      else LastResort
  }

  /** The loop itself: it terminates, and its body runs at most once. */
  method FitResultToCharBudget(r: FitResult, maxChars: nat) returns (result: FitResult, passes: nat)
    requires r.Full?
    ensures result == FitToBudget(r, maxChars)
    ensures passes <= 1
  {
    hide Measure, Dumps;
    passes := 0;
    if Measure(r) <= maxChars {
      return r, passes;
    }
    var text := Dumps(Compact, r.preview, 0);
    result := r.(preview := Str(text));
    result := result.(stats := result.stats.(previewIsText := true));
    result := result.(stats := result.stats.(previewChars := |text|));
    result := result.(truncated := true);
    assert result == WithText(r, text);

    while Measure(result) > maxChars && |result.preview.s| > 4
      invariant result.Full? && result.preview.Str? && result == WithText(r, result.preview.s)
      invariant passes == 0 ==> result == WithText(r, text)
      invariant passes > 0 ==>
        && passes == 1 && |text| > 4 && Measure(WithText(r, text)) > maxChars
        && result == WithText(r, ShrinkText(text, Measure(WithText(r, text)) - maxChars))
        && (|result.preview.s| == 4 || Measure(result) <= maxChars)
      decreases |result.preview.s|
    {
      var preview := result.preview.s;
      OnePassSuffices(r, preview, maxChars);
      var overflow := Measure(result) - maxChars;
      var shrinkBy := Max(overflow + 3, 8);
      var nextLength := Max(1, |preview| - shrinkBy);
      result := result.(preview := Str(preview[..nextLength] + "..."));
      result := result.(stats := result.stats.(previewChars := |result.preview.s|));
      passes := passes + 1;
    }
    if Measure(result) <= maxChars {
      return result, passes;
    }
    var minimal := Minimal(r.originalKind);
    if Measure(minimal) <= maxChars {
      return minimal, passes;
    }
    result := LastResort;
  }

  /** The result fits the budget or is the constant last-resort dict. */
  lemma BudgetRespected(r: FitResult, maxChars: nat)
    requires r.Full?
    ensures Measure(FitToBudget(r, maxChars)) <= maxChars || FitToBudget(r, maxChars) == LastResort
  {
  }

  lemma {:induction false} EscapeGrows(s: string)
    ensures |s| <= |Escape(s)|
  {
    if s != "" {
      EscapeGrows(s[1..]);
    }
  }

  /** The shortest text that the loop can leave. */
  function ShortestText(text: string): string {
    if |text| > 4 then text[..1] + "..." else text
  }

  /** A longer text, or the whole one, never prints shorter. */
  lemma ShortestIsShortest(r: FitResult, text: string, n: nat)
    requires r.Full? && |text| > 4 && 1 <= n <= |text|
    ensures Measure(WithText(r, ShortestText(text))) <= Measure(WithText(r, text[..n] + "..."))
    ensures Measure(WithText(r, ShortestText(text))) <= Measure(WithText(r, text))
  {
    hide Measure, Escape, Frame;
    var least, longer := text[..1] + "...", text[..n] + "...";
    MeasureText(r, least);
    MeasureText(r, longer);
    MeasureText(r, text);
    EscapeConcat(text[..1], "...");
    EscapeConcat(text[..n], "...");
    assert text[..n] == text[..1] + text[1..n] && text == text[..1] + text[1..];
    EscapeConcat(text[..1], text[1..n]);
    EscapeConcat(text[..1], text[1..]);
    EscapeDots();
    EscapeGrows(text[1..]);
    DigitCountMonotone(|least|, |longer|);
    DigitCountMonotone(|least|, |text|);
  }

  /** What one pass keeps: the text gets shorter by the overflow, but by five characters at least,
      and no shorter than four. */
  lemma ShrunkLength(p: string, overflow: nat)
    requires |p| > 4
    ensures |ShrinkText(p, overflow)| == Max(4, |p| - Max(overflow, 5))
    ensures |ShrinkText(p, overflow)| == 4 ==> ShrinkText(p, overflow) == ShortestText(p)
  {
  }

  /** Each result is given exactly when it fits and the ones before it do not: the result as it is,
      one with a text for a preview, which is possible exactly when the shortest text fits, the
      minimal one, and the last resort. */
  lemma BestThatFits(r: FitResult, maxChars: nat)
    requires r.Full? && !r.stats.previewIsText
    ensures var f, text := FitToBudget(r, maxChars), Dumps(Compact, r.preview, 0);
      if Measure(r) <= maxChars then f == r
      else if Measure(WithText(r, ShortestText(text))) <= maxChars then
        && f.Full? && f.preview.Str? && f == WithText(r, f.preview.s) && f != r
        && (Measure(WithText(r, text)) <= maxChars <==> f.preview.s == text)
        && (Measure(WithText(r, text)) > maxChars ==>
              |f.preview.s| == Max(4, |text| - Max(Measure(WithText(r, text)) - maxChars, 5)))
      else if Measure(Minimal(r.originalKind)) <= maxChars then f == Minimal(r.originalKind)
      else f == LastResort
  {
    hide Measure, Dumps, ShrinkText;
    var text := Dumps(Compact, r.preview, 0);
    var whole := WithText(r, text);
    if Measure(whole) > maxChars && |text| > 4 {
      var overflow := Measure(whole) - maxChars;
      OnePassSuffices(r, text, maxChars);
      ShrunkLength(text, overflow);
      var n := ShrunkIsCut(text, overflow);
      ShortestIsShortest(r, text, n);
    } else if |text| > 4 {
      ShortestIsShortest(r, text, 1);
    }
  }

  lemma ShrunkIsCut(p: string, overflow: nat) returns (n: nat)
    requires |p| > 4
    ensures 1 <= n < |p| && ShrinkText(p, overflow) == p[..n] + "..."
  {
    n := Max(1, |p| - Max(overflow + 3, 8));
  }

  // --- fit_output as a whole ---

  function DescribeKind(v: Json): string {
    match v
    case Null => "null"
    case Bool(_) => "bool"
    case Int(_) => "int"
    case Float(_) => "float"
    case Str(_) => "str"
    case Arr(_) => "list"
    case Obj(_) => "dict"
  }

  /** The result before it is fitted to the budget. */
  function InitialResult(v: Json, lim: Limits): FitResult
    requires lim.Ok()
  {
    var preview := Preview(v, lim);
    var report := Report(v, lim);
    var stats := FitStats(MeasureJsonChars(v), MeasureJsonChars(preview), report.omittedItems, report.omittedKeys,
                          report.depthLimited, false);
    Full(DescribeKind(v), preview,
         report.truncated || stats.originalChars > lim.maxChars || stats.previewChars > lim.maxChars, lim, stats)
  }

  function Fitted(v: Json, lim: Limits): FitResult
    requires lim.Ok()
  {
    FitToBudget(InitialResult(v, lim), lim.maxChars)
  }

  method FitOutput(v: Json, maxChars: Arg, maxItems: Arg, maxDepth: Arg, session: int) returns (r: Result<FitResult>)
    ensures r == match NormalizeLimits(maxChars, maxItems, maxDepth, session)
                 case ValueError(m) => ValueError(m)
                 case Ok(lim) => Ok(Fitted(v, lim))
  {
    match NormalizeLimits(maxChars, maxItems, maxDepth, session) {
      case ValueError(m) => r := ValueError(m);
      case Ok(lim) =>
        var preview, stats := CompactFitOutputPreview(v, lim);
        var originalChars, previewChars := MeasureJsonChars(v), MeasureJsonChars(preview);
        var result := Full(DescribeKind(v), preview, stats.truncated, lim,
          FitStats(originalChars, previewChars, stats.omittedItems, stats.omittedKeys, stats.depthLimited, false));
        result := result.(truncated := result.truncated || originalChars > lim.maxChars || previewChars > lim.maxChars);
        var fitted, _ := FitResultToCharBudget(result, lim.maxChars);
        r := Ok(fitted);
    }
  }

  /** A result that does not say "truncated" carries the value itself, whole, within budget. */
  lemma NotTruncatedIsWhole(v: Json, lim: Limits)
    requires lim.Ok()
    requires Fitted(v, lim).Full? && !Fitted(v, lim).truncated
    ensures Fitted(v, lim).preview == v
    ensures Measure(Fitted(v, lim)) <= lim.maxChars
    ensures Fitted(v, lim).stats.previewChars == Fitted(v, lim).stats.originalChars == MeasureJsonChars(v) <= lim.maxChars
  {
    hide Dumps, Measure, Preview, Truncated, Omitted, DepthLimited;
    Faithful(v, lim);
  }

  // --- the smallest budget ---

  const LAST_RESORT_CHARS := 47

  lemma {:induction false} EscapePlain(s: string)
    requires Plain(s)
    ensures Escape(s) == s
  {
    if s != [] {
      EscapePlain(s[1..]);
      assert s == [s[0]] + s[1..];
    }
  }

  predicate Plain(s: string) {
    forall i :: 0 <= i < |s| ==> 'a' <= s[i] <= 'z' || s[i] == '_'
  }

  lemma StringMemberSize(key: string, s: string, level: nat)
    requires Plain(key) && Plain(s)
    ensures FieldSize(Field(key, Str(s)), level) == |key| + |s| + 6
  {
    EscapePlain(key);
    EscapePlain(s);
  }

  lemma BoolMemberSize(key: string, b: bool, level: nat)
    requires Plain(key)
    ensures FieldSize(Field(key, Bool(b)), level) == |key| + if b then 8 else 9
  {
    EscapePlain(key);
  }

  lemma SizeOfTwo(f: Field, g: Field)
    ensures Size(Obj([f, g]), 0) == FieldSize(f, 1) + FieldSize(g, 1) + 10
  {
    var fields := [f, g];
    assert fields[1..] == [g] && [g][1..] == [];
    assert FieldsSize(fields, 1) == FieldSize(f, 1) + FieldsSize([g], 1);
  }

  lemma LastResortSize()
    ensures Measure(LastResort) == LAST_RESORT_CHARS
  {
    hide Dumps, FieldSize, Size;
    DumpsLength(ToJson(LastResort), 0);
    StringMemberSize("kind", "fit_output", 1);
    BoolMemberSize("truncated", true, 1);
    SizeOfTwo(KIND, Field("truncated", Bool(true)));
  }

  lemma SizeOfMore(fields: seq<Field>)
    requires |fields| >= 4
    ensures Size(Obj(fields), 0) >= FieldSize(fields[0], 1) + FieldSize(fields[3], 1) + 18
  {
    FieldsSizeAt(fields, 3, 1);
    FieldsSizeAt(fields[..3], 0, 1);
    assert fields[..3][..0] == [];
  }

  /** Every other result prints longer than the last resort. */
  lemma OthersAreLonger(r: FitResult)
    requires !r.LastResort?
    ensures Measure(r) > LAST_RESORT_CHARS
  {
    hide Dumps, FieldSize, Size;
    DumpsLength(ToJson(r), 0);
    StringMemberSize("kind", "fit_output", 1);
    BoolMemberSize("truncated", true, 1);
    BoolMemberSize("truncated", false, 1);
    SizeOfMore(ToJson(r).fields);
  }
}
