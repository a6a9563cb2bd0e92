/** What a reader of fit_output's result learns: the printed dict reads back, and what it says
    about the value is true. */
module FitReading {
  import opened Wrappers
  import opened Numerals
  import opened JsonText
  import opened JsonPaths
  import opened JsonReader
  import opened JsonRoundTrip
  import opened Compaction
  import opened CompactionPaths
  import opened FitOutput

  /** Members of the dict by their keys: a full result names its kind, the kind of the value,
      the preview, the flag, the three limits and the statistics. */
  lemma ResultSays(r: FitResult)
    requires r.Full?
    ensures var j := ToJson(r);
      && At(j, [Key(0, "kind")]) == Some(Str("fit_output"))
      && At(j, [Key(1, "originalKind")]) == Some(Str(r.originalKind))
      && At(j, [Key(2, "preview")]) == Some(r.preview)
      && At(j, [Key(3, "truncated")]) == Some(Bool(r.truncated))
      && At(j, [Key(4, "limits"), Key(0, "maxChars")]) == Some(Int(r.limits.maxChars))
      && At(j, [Key(4, "limits"), Key(1, "maxItems")]) == Some(Int(r.limits.maxItems))
      && At(j, [Key(4, "limits"), Key(2, "maxDepth")]) == Some(Int(r.limits.maxDepth))
      && At(j, [Key(5, "stats"), Key(0, "originalChars")]) == Some(Int(r.stats.originalChars))
      && At(j, [Key(5, "stats"), Key(1, "previewChars")]) == Some(Int(r.stats.previewChars))
      && At(j, [Key(5, "stats"), Key(2, "omittedItems")]) == Some(Int(r.stats.omittedItems))
      && At(j, [Key(5, "stats"), Key(3, "omittedKeys")]) == Some(Int(r.stats.omittedKeys))
      && At(j, [Key(5, "stats"), Key(4, "depthLimited")]) == Some(Bool(r.stats.depthLimited))
      && At(j, [Key(5, "stats"), Key(5, "previewKind")]) == (if r.stats.previewIsText then Some(Str("text")) else None)
  {
    var j := ToJson(r);
    TwoSteps(j, Key(4, "limits"), Key(0, "maxChars"));
    TwoSteps(j, Key(4, "limits"), Key(1, "maxItems"));
    TwoSteps(j, Key(4, "limits"), Key(2, "maxDepth"));
    TwoSteps(j, Key(5, "stats"), Key(0, "originalChars"));
    TwoSteps(j, Key(5, "stats"), Key(1, "previewChars"));
    TwoSteps(j, Key(5, "stats"), Key(2, "omittedItems"));
    TwoSteps(j, Key(5, "stats"), Key(3, "omittedKeys"));
    TwoSteps(j, Key(5, "stats"), Key(4, "depthLimited"));
    TwoSteps(j, Key(5, "stats"), Key(5, "previewKind"));
    OneStep(j, Key(0, "kind"));
    OneStep(j, Key(1, "originalKind"));
    OneStep(j, Key(2, "preview"));
    OneStep(j, Key(3, "truncated"));
    hide At;
  }

  /** The smaller results: without room for a preview, three dots stand for it; the last resort
      names the kind and the flag alone. */
  lemma SmallResultsSay(originalKind: string)
    ensures var j := ToJson(Minimal(originalKind));
      && |j.fields| == 4 && At(j, [Key(0, "kind")]) == Some(Str("fit_output"))
      && At(j, [Key(1, "originalKind")]) == Some(Str(originalKind))
      && At(j, [Key(2, "preview")]) == Some(Str("...")) && At(j, [Key(3, "truncated")]) == Some(Bool(true))
    ensures var j := ToJson(LastResort);
      |j.fields| == 2 && At(j, [Key(0, "kind")]) == Some(Str("fit_output")) && At(j, [Key(1, "truncated")]) == Some(Bool(true))
  {
    var j, k := ToJson(Minimal(originalKind)), ToJson(LastResort);
    OneStep(j, Key(0, "kind"));
    OneStep(j, Key(1, "originalKind"));
    OneStep(j, Key(2, "preview"));
    OneStep(j, Key(3, "truncated"));
    OneStep(k, Key(0, "kind"));
    OneStep(k, Key(1, "truncated"));
    hide At;
  }

  lemma OneStep(v: Json, a: PathStep)
    ensures At(v, [a]) == Child(v, a)
  {
    assert [a][1..] == [];
  }

  lemma TwoSteps(v: Json, a: PathStep, b: PathStep)
    ensures At(v, [a, b]) == if Child(v, a).Some? then Child(Child(v, a).value, b) else None
  {
    assert [a, b][1..] == [b];
    if Child(v, a).Some? { OneStep(Child(v, a).value, b); }
  }

  /** The name that Python has for the type of a value. */
  predicate PythonKind(kind: string, v: Json) {
    && (v.Null? ==> kind == "null")
    && (v.Bool? ==> kind == "bool")
    && (v.Int? ==> kind == "int")
    && (v.Float? ==> kind == "float")
    && (v.Str? ==> kind == "str")
    && (v.Arr? ==> kind == "list")
    && (v.Obj? ==> kind == "dict")
  }

  /** A text preview is the compact print of the preview, or a part of its start and three dots. */
  ghost predicate PreviewText(text: string, preview: Json) {
    var whole := Dumps(Compact, preview, 0);
    text == whole || exists n: nat :: 1 <= n < |whole| && text == whole[..n] + "..."
  }

  /** What a full result says about the value is true: the kind, the limits, the length of its
      indented print, what the preview keeps and omits, and the length of the preview; the flag
      is down exactly for a value that is shown whole, within all limits and the budget. */
  lemma FittedSpeaksTruly(v: Json, lim: Limits)
    requires lim.Ok() && !Fitted(v, lim).LastResort?
    ensures PythonKind(Fitted(v, lim).originalKind, v)
    ensures Fitted(v, lim).Full? ==>
      var r := Fitted(v, lim);
      && r.limits == lim
      && r.stats.originalChars == |Dumps(Indented, v, 0)|
      && r.stats.omittedItems + Children(Preview(v, lim), Items) == Visited(v, lim, Items)
      && r.stats.omittedKeys + Children(Preview(v, lim), Keys) == Visited(v, lim, Keys)
      && (r.stats.depthLimited <==> DepthLimited(v, lim))
      && (if r.stats.previewIsText then
            r.truncated && r.preview.Str? && r.stats.previewChars == |r.preview.s| && PreviewText(r.preview.s, Preview(v, lim))
          else
            && r.preview == Preview(v, lim) && r.stats.previewChars == |Dumps(Indented, r.preview, 0)|
            && (!r.truncated <==> Within(v, lim) && |Dumps(Indented, v, 0)| <= lim.maxChars))
  {
    hide Dumps, Measure, Preview, Truncated, Omitted, DepthLimited, Visited, Children;
    Accounting(v, lim, Items);
    Accounting(v, lim, Keys);
    Faithful(v, lim);
    var r := InitialResult(v, lim);
    var text := Dumps(Compact, r.preview, 0);
    if Measure(r) > lim.maxChars && |text| > 4 && Measure(WithText(r, text)) > lim.maxChars {
      var n := ShrunkIsCut(text, Measure(WithText(r, text)) - lim.maxChars);
    }
  }

  // --- reading the printed dict ---

  lemma {:induction false} PreviewPrintable(v: Json, lim: Limits)
    requires lim.Ok() && Printable(v)
    ensures Printable(Preview(v, lim))
    decreases lim.maxDepth
  {
    hide Placeholder;
    var inner := lim.(maxDepth := lim.maxDepth - 1);
    if v.Arr? && lim.maxDepth > 0 {
      PreviewOfList(v.items, lim);
      hide Preview;
      var p := Preview(v, lim);
      forall i | 0 <= i < |p.items| ensures Printable(p.items[i]) {
        PreviewPrintable(v.items[i], inner);
      }
    } else if v.Obj? && lim.maxDepth > 0 {
      PreviewOfDict(v.fields, lim);
      hide Preview;
      var p := Preview(v, lim);
      forall i | 0 <= i < |p.fields| ensures Printable(p.fields[i].value) {
        PreviewPrintable(v.fields[i].value, inner);
      }
    }
  }

  predicate DistinctKeys(fields: seq<Field>) {
    forall i, j :: 0 <= i < j < |fields| ==> fields[i].key != fields[j].key
  }

  lemma LimitsPrintable(lim: Limits)
    ensures Printable(LimitsJson(lim))
  {
    assert "maxChars"[3] == 'C' && "maxItems"[3] == 'I' && "maxDepth"[3] == 'D';
  }

  lemma StatsPrintable(s: FitStats)
    ensures Printable(StatsJson(s))
  {
    assert "originalChars"[1] == 'r' && "previewChars"[0] == 'p' && |"previewChars"| == 12;
    assert "omittedItems"[7] == 'I' && "omittedKeys"[7] == 'K' && "omittedItems"[1] == 'm' && "omittedKeys"[1] == 'm';
    assert "depthLimited"[0] == 'd' && "previewKind"[0] == 'p' && |"previewKind"| == 11;
    assert DistinctKeys(StatsJson(s).fields);
  }

  lemma ResultPrintable(r: FitResult)
    requires r.Full? ==> Printable(r.preview)
    ensures Printable(ToJson(r))
  {
    assert "kind"[0] == 'k' && "originalKind"[0] == 'o' && "preview"[0] == 'p' && "truncated"[0] == 't';
    assert "limits"[0] == 'l' && "stats"[0] == 's';
    assert DistinctKeys(ToJson(r).fields);
    if r.Full? {
      LimitsPrintable(r.limits);
      StatsPrintable(r.stats);
    }
    hide LimitsJson, StatsJson;
  }

  /** The printed result of fit_output reads back as the dict that was returned. */
  lemma FittedReadsBack(v: Json, lim: Limits)
    requires lim.Ok() && Printable(v)
    ensures var j := ToJson(Fitted(v, lim));
      Read(Dumps(Indented, j, 0)).Some? && Same(j, Read(Dumps(Indented, j, 0)).value)
  {
    hide Dumps, Measure, Preview, Read, Same, ToJson, Printable;
    PreviewPrintable(v, lim);
    TextPrintable();
    ResultPrintable(Fitted(v, lim));
    PrintReadsBack(Indented, ToJson(Fitted(v, lim)), 0);
  }

  lemma TextPrintable()
    ensures forall s: string :: Printable(Str(s))
  {
  }

  /** A text preview that was not cut reads back as the preview. */
  lemma WholeTextReadsBack(v: Json, lim: Limits)
    requires lim.Ok() && Printable(v)
    ensures var text := Dumps(Compact, Preview(v, lim), 0);
      Read(text).Some? && Same(Preview(v, lim), Read(text).value)
  {
    PreviewPrintable(v, lim);
    PrintReadsBack(Compact, Preview(v, lim), 0);
  }
}
