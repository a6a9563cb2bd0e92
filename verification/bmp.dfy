/** Which values print within the Basic Multilingual Plane, and that fit_output adds nothing
    outside it. */
module Bmp {
  import opened Numerals
  import opened Text
  import opened JsonText
  import opened KeyOrder
  import opened Compaction
  import opened FitOutput

  /** Every string, key and float text in the value is BMP text. */
  predicate BmpJson(v: Json) {
    match v
    case Float(repr) => AllBmp(repr)
    case Str(s) => AllBmp(s)
    case Arr(items) => forall i :: 0 <= i < |items| ==> BmpJson(items[i])
    case Obj(fields) => forall i :: 0 <= i < |fields| ==> AllBmp(fields[i].key) && BmpJson(fields[i].value)
    case _ => true
  }

  // --- text ---

  lemma ConcatBmp(a: string, b: string)
    ensures AllBmp(a + b) <==> AllBmp(a) && AllBmp(b)
  {
    if AllBmp(a + b) {
      assert forall i :: 0 <= i < |a| ==> (a + b)[i] == a[i];
      assert forall i :: 0 <= i < |b| ==> (a + b)[|a| + i] == b[i];
    }
  }

  lemma {:induction false} EscapeBmp(s: string)
    ensures AllBmp(Escape(s)) <==> AllBmp(s)
  {
    if s != [] {
      EscapeBmp(s[1..]);
      EscapeCharBmp(s[0]);
      hide EscapeChar;
      ConcatBmp(EscapeChar(s[0]), Escape(s[1..]));
      assert s == [s[0]] + s[1..];
      ConcatBmp([s[0]], s[1..]);
      assert [s[0]][0] == s[0];
    }
  }

  lemma EscapeCharBmp(c: char)
    ensures AllBmp(EscapeChar(c)) <==> AllBmp([c])
  {
    var e := EscapeChar(c);
    if IsBmp(c) {
      assert forall i :: 0 <= i < |e| ==> IsBmp(e[i]);
    } else {
      assert e == [c] && [c][0] == c;
    }
  }

  lemma QuoteBmp(s: string)
    ensures AllBmp(Quote(s)) <==> AllBmp(s)
  {
    hide Escape;
    EscapeBmp(s);
    ConcatBmp("\"", Escape(s));
    ConcatBmp("\"" + Escape(s), "\"");
    assert AllBmp("\"");
  }

  lemma {:induction false} JoinBmp(parts: seq<string>, separator: string)
    requires AllBmp(separator)
    ensures AllBmp(Join(parts, separator)) <==> forall i :: 0 <= i < |parts| ==> AllBmp(parts[i])
  {
    hide AllBmp;
    if parts == [] {
      EmptyBmp();
    } else if |parts| > 1 {
      var rest := Join(parts[1..], separator);
      JoinBmp(parts[1..], separator);
      ConcatBmp(parts[0], separator);
      ConcatBmp(parts[0] + separator, rest);
      assert forall i :: 0 <= i < |parts| - 1 ==> parts[1..][i] == parts[i + 1];
      assert forall i :: 0 < i < |parts| ==> parts[i] == parts[1..][i - 1];
    }
  }

  lemma EmptyBmp()
    ensures AllBmp("")
  {
  }

  /** All that the printer adds by itself is BMP text. */
  lemma PunctuationBmp(style: Style, level: nat)
    ensures AllBmp(Break(style, level)) && AllBmp("," + Break(style, level)) && AllBmp(Colon(style))
    ensures AllBmp("[") && AllBmp("]") && AllBmp("{") && AllBmp("}")
    ensures AllBmp("null") && AllBmp("true") && AllBmp("false")
  {
    var spaces := Spaces(2 * level);
    assert forall i :: 0 <= i < |spaces| ==> spaces[i] == ' ';
    ConcatBmp("\n", spaces);
    ConcatBmp(",", Break(style, level));
  }

  lemma IntTextBmp(n: int)
    ensures AllBmp(IntText(n))
  {
    hide Decimal;
    if n < 0 { ConcatBmp("-", Decimal(-n)); }
  }

  lemma BracketBmp(style: Style, level: nat, open: string, parts: seq<string>, close: string)
    requires AllBmp(open) && AllBmp(close)
    ensures AllBmp(Bracket(style, level, open, parts, close)) <==> forall i :: 0 <= i < |parts| ==> AllBmp(parts[i])
  {
    hide AllBmp, Break, Join;
    if parts == [] {
      ConcatBmp(open, close);
    } else {
      var separator := "," + Break(style, level + 1);
      PunctuationBmp(style, level);
      PunctuationBmp(style, level + 1);
      JoinBmp(parts, separator);
      ConcatBmp(open, Break(style, level + 1));
      ConcatBmp(open + Break(style, level + 1), Join(parts, separator));
      ConcatBmp(open + Break(style, level + 1) + Join(parts, separator), Break(style, level));
      ConcatBmp(open + Break(style, level + 1) + Join(parts, separator) + Break(style, level), close);
    }
  }

  // --- values ---

  predicate MemberBmp(m: Member) {
    AllBmp(m.key) && AllBmp(m.text)
  }

  lemma {:induction false} SortHolds(members: seq<Member>)
    ensures forall m :: m in SortByKey(members) <==> m in members
  {
    if members != [] {
      SortHolds(members[1..]);
      InsertAdds(members[0], SortByKey(members[1..]));
      assert members == [members[0]] + members[1..];
    }
  }

  lemma MemberTextsBmp(style: Style, members: seq<Member>)
    ensures (forall i :: 0 <= i < |members| ==> AllBmp(MemberTexts(style, members)[i]))
            <==> forall m <- members :: MemberBmp(m)
  {
    hide AllBmp, Quote, Colon;
    forall i | 0 <= i < |members| ensures AllBmp(MemberTexts(style, members)[i]) <==> MemberBmp(members[i]) {
      var m := members[i];
      QuoteBmp(m.key);
      PunctuationBmp(style, 0);
      ConcatBmp(Quote(m.key), Colon(style));
      ConcatBmp(Quote(m.key) + Colon(style), m.text);
    }
    assert forall m <- members :: exists i :: 0 <= i < |members| && members[i] == m;
  }

  /** A value prints as BMP text exactly when it holds nothing else. */
  lemma {:induction false} DumpsBmp(style: Style, v: Json, level: nat)
    ensures AllBmp(Dumps(style, v, level)) <==> BmpJson(v)
  {
    hide AllBmp, Bracket, Quote, IntText, SortByKey, MemberTexts, DumpItems, DumpMembers;
    PunctuationBmp(style, level);
    match v
    case Null =>
    case Bool(_) =>
    case Int(n) => IntTextBmp(n);
    case Float(_) =>
    case Str(s) => QuoteBmp(s);
    case Arr(items) =>
      var texts := DumpItems(style, items, level + 1);
      BracketBmp(style, level, "[", texts, "]");
      forall i | 0 <= i < |items| ensures AllBmp(texts[i]) <==> BmpJson(items[i]) {
        DumpItemsAt(style, items, level + 1, i);
        DumpsBmp(style, items[i], level + 1);
      }
      assert BmpJson(v) <==> forall i :: 0 <= i < |texts| ==> AllBmp(texts[i]);
    case Obj(fields) =>
      var members := DumpMembers(style, fields, level + 1);
      forall i | 0 <= i < |fields| ensures MemberBmp(members[i]) <==> AllBmp(fields[i].key) && BmpJson(fields[i].value) {
        DumpMembersAt(style, fields, level + 1, i);
        DumpsBmp(style, fields[i].value, level + 1);
      }
      ObjectBmp(style, level, members);
      assert (forall m <- members :: MemberBmp(m)) <==> forall i :: 0 <= i < |members| ==> MemberBmp(members[i]);
  }

  lemma ObjectBmp(style: Style, level: nat, members: seq<Member>)
    ensures AllBmp(Bracket(style, level, "{", MemberTexts(style, SortByKey(members)), "}")) <==> forall m <- members :: MemberBmp(m)
  {
    hide AllBmp, Bracket, SortByKey, MemberTexts, MemberBmp;
    PunctuationBmp(style, level);
    SortHolds(members);
    MemberTextsBmp(style, SortByKey(members));
    BracketBmp(style, level, "{", MemberTexts(style, SortByKey(members)), "}");
  }

  // --- fit_output ---

  lemma CutBmp(s: string, n: nat)
    requires AllBmp(s) && n <= |s|
    ensures AllBmp(s[..n] + "...")
  {
    ConcatBmp(s[..n], "...");
  }

  lemma PlaceholderBmp(v: Json)
    ensures AllBmp(Placeholder(v))
  {
    hide Decimal, Kids;
    var n := |Kids(v)|;
    AffixBmp("<list len=", Decimal(n), ">");
    AffixBmp("<dict keys=", Decimal(n), ">");
  }

  lemma AffixBmp(a: string, digits: string, b: string)
    requires AllDigits(digits)
    ensures AllBmp(a) && AllBmp(b) ==> AllBmp(a + digits + b)
  {
    ConcatBmp(a, digits);
    ConcatBmp(a + digits, b);
  }

  lemma {:induction false} PreviewBmp(v: Json, lim: Limits)
    requires lim.Ok() && BmpJson(v)
    ensures BmpJson(Preview(v, lim))
    decreases lim.maxDepth
  {
    hide AllBmp, Placeholder;
    if v.Str? && |v.s| > lim.maxChars {
      CutBmp(v.s, Max(1, lim.maxChars - 3));
    } else if v.IsContainer() && lim.maxDepth == 0 {
      PlaceholderBmp(v);
    } else if v.IsContainer() {
      forall i | 0 <= i < lim.Shown(|Kids(v)|) ensures BmpJson(Preview(Kids(v)[i], lim.Inner())) {
        PreviewBmp(Kids(v)[i], lim.Inner());
      }
    }
  }

  lemma LiteralKeysBmp()
    ensures AllBmp("kind") && AllBmp("fit_output") && AllBmp("originalKind") && AllBmp("preview") && AllBmp("truncated")
    ensures AllBmp("limits") && AllBmp("maxChars") && AllBmp("maxItems") && AllBmp("maxDepth") && AllBmp("...")
  {
  }

  lemma StatsKeysBmp()
    ensures AllBmp("stats") && AllBmp("originalChars") && AllBmp("previewChars") && AllBmp("omittedItems")
    ensures AllBmp("omittedKeys") && AllBmp("depthLimited") && AllBmp("previewKind") && AllBmp("text")
  {
  }

  lemma KindBmp(v: Json)
    ensures AllBmp(DescribeKind(v))
  {
  }

  /** The dict that is returned adds no other text to its kind and its preview. */
  lemma ResultBmp(r: FitResult)
    requires r.LastResort? || AllBmp(r.originalKind)
    requires r.Full? ==> BmpJson(r.preview)
    ensures BmpJson(ToJson(r))
  {
    hide AllBmp;
    LiteralKeysBmp();
    StatsKeysBmp();
    if r.Full? {
      assert BmpJson(LimitsJson(r.limits));
      assert BmpJson(StatsJson(r.stats));
    }
  }

  /** fit_output gives BMP text for BMP values. */
  lemma FittedBmp(v: Json, lim: Limits)
    requires lim.Ok() && BmpJson(v)
    ensures BmpJson(ToJson(Fitted(v, lim)))
  {
    hide AllBmp, Dumps, Measure, Preview, ToJson, BmpJson;
    var r := InitialResult(v, lim);
    var text := Dumps(Compact, r.preview, 0);
    PreviewBmp(v, lim);
    KindBmp(v);
    DumpsBmp(Compact, r.preview, 0);
    StringsBmp(text);
    if |text| > 4 {
      var overflow := Measure(WithText(r, text)) - lim.maxChars;
      if overflow >= 0 {
        CutBmp(text, Max(1, |text| - Max(overflow + 3, 8)));
        StringsBmp(ShrinkText(text, overflow));
      }
    }
    ResultBmp(Fitted(v, lim));
  }

  lemma StringsBmp(s: string)
    ensures BmpJson(Str(s)) <==> AllBmp(s)
  {
  }
}
