/** The printer and the reader: what is printed for a value reads back as that value, up to the
    order of object members, in both styles. */
module JsonRoundTrip {
  import opened Wrappers
  import opened Numerals
  import opened Text
  import opened JsonText
  import opened JsonReader
  import opened KeyOrder

  /** Values that a JSON text can denote: keys are distinct, and floats print as numerals. */
  predicate Printable(v: Json) {
    match v
    case Float(repr) => IsFloatText(repr)
    case Arr(items) => forall i :: 0 <= i < |items| ==> Printable(items[i])
    case Obj(fields) =>
      && (forall i, j :: 0 <= i < j < |fields| ==> fields[i].key != fields[j].key)
      && (forall i :: 0 <= i < |fields| ==> Printable(fields[i].value))
    case _ => true
  }

  /** Equal up to the order of members, for values with distinct keys. */
  predicate Same(v: Json, w: Json)
    decreases v
  {
    match v
    case Arr(items) => w.Arr? && |w.items| == |items| && forall i :: 0 <= i < |items| ==> Same(items[i], w.items[i])
    case Obj(fields) => w.Obj? && |w.fields| == |fields| && forall i :: 0 <= i < |fields| ==> HasMember(w.fields, fields[i])
    case _ => w == v
  }

  /** Under the key of the field stands a value that is the same. */
  predicate HasMember(fields: seq<Field>, f: Field)
    decreases f
  {
    exists j :: 0 <= j < |fields| && fields[j].key == f.key && Same(f.value, fields[j].value)
  }

  // --- white space ---

  predicate White(s: string) {
    forall i :: 0 <= i < |s| ==> IsWhite(s[i])
  }

  lemma {:induction false} SkipWhite(space: string, s: string)
    requires White(space)
    ensures Skip(space + s) == Skip(s)
  {
    if space == "" {
      assert space + s == s;
    } else {
      assert (space + s)[1..] == space[1..] + s;
      SkipWhite(space[1..], s);
    }
  }

  lemma BreakWhite(style: Style, level: nat)
    ensures White(Break(style, level))
  {
  }

  lemma ReadAfterWhite(space: string, s: string)
    requires White(space)
    ensures ReadValue(space + s) == ReadValue(s) && ReadMember(space + s) == ReadMember(s)
  {
    hide Skip, ReadScalar, ReadItems, ReadMembers, ReadChars;
    SkipWhite(space, s);
  }

  // --- strings ---

  lemma ReadOneChar(c: char, t: string)
    ensures ReadChars(EscapeChar(c) + t) == Before(c, ReadChars(t))
  {
    var e := EscapeChar(c);
    var s := e + t;
    if |e| == 1 {
      assert s[1..] == t;
    } else if |e| == 2 {
      assert s[1..][1..] == t;
    } else {
      ReadUnicode(c, t);
    }
  }

  lemma ReadUnicode(c: char, t: string)
    requires |EscapeChar(c)| == 6
    ensures ReadChars(EscapeChar(c) + t) == Before(c, ReadChars(t))
  {
    var e := EscapeChar(c);
    var s := e + t;
    var n := c as int;
    assert n < 0x20;
    var h := ['0', '0', HexChar(n / 16), HexChar(n % 16)];
    assert e == ['\\', 'u'] + h;
    assert s == ['\\'] + (['u'] + (h + t));
    assert s[1..] == ['u'] + (h + t);
    assert s[1..][1..5] == h && s[1..][5..] == t;
    FourHex(HexChar(n / 16), HexChar(n % 16), n / 16, n % 16);
  }

  lemma FourHex(a: char, b: char, high: nat, low: nat)
    requires high < 16 && low < 16 && a == HexChar(high) && b == HexChar(low)
    ensures HexNumber(['0', '0', a, b]) == Some(16 * high + low)
  {
    assert HexValue(a) == Some(high) && HexValue(b) == Some(low);
    var h := ['0', '0', a, b];
    assert h[..3] == ['0', '0', a] && ['0', '0', a][..2] == ['0', '0'] && ['0', '0'][..1] == ['0'] && ['0'][..0] == [];
    assert HexNumber(['0']) == Some(0);
    assert HexNumber(['0', '0']) == Some(0);
    assert HexNumber(['0', '0', a]) == Some(high);
  }

  /** Escaped text reads back as the text. */
  lemma {:induction false} ReadEscaped(p: string, rest: string)
    ensures ReadChars(Escape(p) + ("\"" + rest)) == Some(Parsed(p, rest))
  {
    if p == "" {
      assert Escape(p) + ("\"" + rest) == "\"" + rest;
      assert ("\"" + rest)[1..] == rest;
    } else {
      var e, more := EscapeChar(p[0]), Escape(p[1..]);
      Associative(e, more, "\"" + rest);
      ReadOneChar(p[0], more + ("\"" + rest));
      ReadEscaped(p[1..], rest);
      assert [p[0]] + p[1..] == p;
    }
  }

  lemma QuoteParts(p: string, rest: string)
    ensures Quote(p) + rest == "\"" + (Escape(p) + ("\"" + rest))
    ensures (Quote(p) + rest)[1..] == Escape(p) + ("\"" + rest) && (Quote(p) + rest)[0] == '\"'
  {
    hide Escape;
  }

  // --- numbers ---

  /** Text that can stand behind a number. */
  predicate Follows(rest: string) {
    rest == "" || !IsNumberChar(rest[0])
  }

  lemma {:induction false} NumberRunStops(t: string, rest: string)
    requires Follows(rest) && forall i :: 0 <= i < |t| ==> IsNumberChar(t[i])
    ensures NumberRun(t + rest) == t
  {
    if t == "" {
      assert t + rest == rest;
    } else {
      assert (t + rest)[1..] == t[1..] + rest;
      NumberRunStops(t[1..], rest);
    }
  }

  lemma {:induction false} NoLeadingZero(n: nat)
    ensures IsWhole(Decimal(n))
  {
    if n >= 10 {
      NoLeadingZero(n / 10);
      assert Decimal(n)[0] == Decimal(n / 10)[0];
      LeadingZeroMeansZero(n / 10);
    }
  }

  lemma {:induction false} LeadingZeroMeansZero(n: nat)
    ensures Decimal(n)[0] == '0' ==> n == 0
  {
    if n >= 10 {
      LeadingZeroMeansZero(n / 10);
      assert Decimal(n)[0] == Decimal(n / 10)[0];
    }
  }

  lemma IntReads(n: int)
    ensures NumberOf(IntText(n)) == Some(Int(n))
    ensures IntText(n) != "" && forall i :: 0 <= i < |IntText(n)| ==> IsNumberChar(IntText(n)[i])
  {
    hide Decimal, ParseDecimal, DigitCount;
    var m: nat := if n < 0 then -n else n;
    NoLeadingZero(m);
    ParseOfDecimal(m);
    assert Unsigned(IntText(n)) == Decimal(m);
    assert n < 0 ==> IntText(n)[1..] == Decimal(m);
  }

  lemma FloatReads(repr: string)
    requires IsFloatText(repr)
    ensures NumberOf(repr) == Some(Float(repr))
    ensures repr != "" && forall i :: 0 <= i < |repr| ==> IsNumberChar(repr[i])
  {
    hide Digits;
    var t := Unsigned(repr);
    var whole := Digits(t);
    var more := t[|whole|..];
    MoreChars(more);
    NotAllDigits(t);
    WholeAndMore(t, whole);
    assert repr == t || repr == "-" + t;
  }

  lemma WholeAndMore(t: string, whole: string)
    requires whole <= t && AllDigits(whole) && forall i :: 0 <= i < |t| - |whole| ==> IsNumberChar(t[|whole|..][i])
    ensures forall i :: 0 <= i < |t| ==> IsNumberChar(t[i])
  {
    forall i | 0 <= i < |t| ensures IsNumberChar(t[i]) {
      if i < |whole| { assert t[i] == whole[i]; } else { assert t[i] == t[|whole|..][i - |whole|]; }
    }
  }

  lemma {:induction false} NotAllDigits(t: string)
    ensures AllDigits(t) <==> Digits(t) == t
  {
    if t != "" && IsDigit(t[0]) {
      NotAllDigits(t[1..]);
      assert t == [t[0]] + t[1..];
    }
  }

  lemma MoreChars(more: string)
    requires IsFraction(more) || IsExponent(more)
      || (more != "" && more[0] == '.' && Digits(more[1..]) != "" && IsExponent(more[1 + |Digits(more[1..])|..]))
    ensures forall i :: 0 <= i < |more| ==> IsNumberChar(more[i])
  {
    hide Digits, IsExponent;
    if IsFraction(more) {
      assert more == [more[0]] + more[1..];
    } else if IsExponent(more) {
      ExponentChars(more);
    } else {
      var d := Digits(more[1..]);
      var e := more[1 + |d|..];
      ExponentChars(e);
      PartsNumeric(more, d, e);
    }
  }

  lemma PartsNumeric(more: string, d: string, e: string)
    requires more != "" && more[0] == '.' && AllDigits(d) && |d| < |more| && d <= more[1..] && e == more[1 + |d|..]
    requires forall i :: 0 <= i < |e| ==> IsNumberChar(e[i])
    ensures forall i :: 0 <= i < |more| ==> IsNumberChar(more[i])
  {
    forall i | 0 <= i < |more| ensures IsNumberChar(more[i]) {
      if 1 <= i <= |d| {
        assert more[i] == more[1..][i - 1] == d[i - 1];
      } else if i > |d| {
        assert more[i] == e[i - 1 - |d|];
      }
    }
  }

  lemma ExponentChars(e: string)
    requires IsExponent(e)
    ensures forall i :: 0 <= i < |e| ==> IsNumberChar(e[i])
  {
    var t := if |e| >= 2 && (e[1] == '+' || e[1] == '-') then e[2..] else e[1..];
    assert e == e[..|e| - |t|] + t;
  }

  // --- what reads as what ---

  /** Whatever may stand behind it, the text reads as a value that is the same. */
  ghost predicate ReadsTo(text: string, w: Json) {
    forall rest: string :: Follows(rest) ==> ReadValue(text + rest) == Some(Parsed(w, rest))
  }

  ghost predicate ReadsAs(text: string, v: Json) {
    exists w :: Same(v, w) && ReadsTo(text, w)
  }

  lemma ScalarReads(text: string, w: Json)
    requires text != "" && !IsWhite(text[0]) && text[0] != '[' && text[0] != '{'
    requires forall rest: string :: Follows(rest) ==> ReadScalar(text + rest) == Some(Parsed(w, rest))
    ensures ReadsTo(text, w)
  {
    hide ReadScalar, ReadItems, ReadMembers;
    forall rest: string | Follows(rest) ensures ReadValue(text + rest) == Some(Parsed(w, rest)) {
      assert (text + rest)[0] == text[0];
      assert Skip(text + rest) == text + rest;
    }
  }

  lemma LiteralReads(b: bool)
    ensures ReadsTo("null", Null) && ReadsTo(if b then "true" else "false", Bool(b))
  {
    forall rest: string ensures ReadScalar("null" + rest) == Some(Parsed(Null, rest)) {
      assert ("null" + rest)[4..] == rest;
    }
    ScalarReads("null", Null);
    if b {
      forall rest: string ensures ReadScalar("true" + rest) == Some(Parsed(Bool(true), rest)) {
        assert ("true" + rest)[4..] == rest;
        assert ("true" + rest)[0] == 't';
      }
      ScalarReads("true", Bool(true));
    } else {
      forall rest: string ensures ReadScalar("false" + rest) == Some(Parsed(Bool(false), rest)) {
        assert ("false" + rest)[5..] == rest;
        assert ("false" + rest)[0] == 'f';
      }
      ScalarReads("false", Bool(false));
    }
  }

  lemma StringReads(p: string)
    ensures ReadsTo(Quote(p), Str(p))
  {
    hide Escape, ReadChars, NumberRun, NumberOf;
    forall rest: string ensures ReadScalar(Quote(p) + rest) == Some(Parsed(Str(p), rest)) {
      QuoteParts(p, rest);
      ReadEscaped(p, rest);
    }
    assert Quote(p)[0] == '\"';
    ScalarReads(Quote(p), Str(p));
  }

  lemma NumberReads(text: string, w: Json)
    requires text != "" && NumberOf(text) == Some(w) && forall i :: 0 <= i < |text| ==> IsNumberChar(text[i])
    ensures ReadsTo(text, w)
  {
    hide NumberOf, NumberRun, ReadChars;
    forall rest: string | Follows(rest) ensures ReadScalar(text + rest) == Some(Parsed(w, rest)) {
      NumberRunStops(text, rest);
      assert (text + rest)[0] == text[0] && (text + rest)[|text|..] == rest;
      NoLiteral(text + rest);
    }
    ScalarReads(text, w);
  }

  lemma NoLiteral(s: string)
    requires s != "" && IsNumberChar(s[0])
    ensures !("null" <= s) && !("true" <= s) && !("false" <= s)
  {
    assert "null"[0] == 'n' && "true"[0] == 't' && "false"[0] == 'f';
  }

  // --- lists ---

  lemma StartsAsValue(s: string)
    requires ReadValue(s).Some?
    ensures Skip(s) != "" && Skip(s)[0] != ']' && Skip(s)[0] != '}'
  {
    hide ReadItems, ReadMembers, ReadChars, Skip;
    var t := Skip(s);
    assert t != "" && (t[0] == ']' || t[0] == '}') ==> NumberRun(t) == "";
    NoBracketLiteral(t);
  }

  lemma NoBracketLiteral(t: string)
    ensures t != "" && (t[0] == ']' || t[0] == '}') ==> !("null" <= t) && !("true" <= t) && !("false" <= t)
  {
    assert "null"[0] == 'n' && "true"[0] == 't' && "false"[0] == 'f';
  }

  lemma {:induction false} ChooseReadings(texts: seq<string>, items: seq<Json>) returns (ws: seq<Json>)
    requires |texts| == |items| && forall i :: 0 <= i < |texts| ==> ReadsAs(texts[i], items[i])
    ensures |ws| == |items| && forall i :: 0 <= i < |items| ==> Same(items[i], ws[i]) && ReadsTo(texts[i], ws[i])
  {
    hide Same, ReadsTo;
    if items == [] {
      ws := [];
    } else {
      var w :| Same(items[0], w) && ReadsTo(texts[0], w);
      var more := ChooseReadings(texts[1..], items[1..]);
      ws := [w] + more;
      assert forall i :: 0 < i < |items| ==> items[i] == items[1..][i - 1] && texts[i] == texts[1..][i - 1];
    }
  }

  /** The items of a list behind white space, up to the bracket. */
  lemma {:induction false} ItemsRead(texts: seq<string>, ws: seq<Json>, space: string, end: string, rest: string)
    requires |texts| == |ws| > 0 && White(space) && White(end)
    requires forall i :: 0 <= i < |texts| ==> ReadsTo(texts[i], ws[i])
    ensures ReadItems(space + (Join(texts, "," + space) + (end + ("]" + rest)))) == Some(Parsed(ws, rest))
  {
    hide ReadItems, White, ReadsTo;
    if |texts| == 1 {
      LastItem(texts[0], ws[0], space, end, rest);
      assert ws == [ws[0]];
    } else {
      JoinParts(texts, space, end + ("]" + rest));
      ItemsRead(texts[1..], ws[1..], space, end, rest);
      ItemAndMore(texts[0], ws[0], ws[1..], space, space + (Join(texts[1..], "," + space) + (end + ("]" + rest))), rest);
      assert [ws[0]] + ws[1..] == ws;
    }
  }

  lemma LastItem(text: string, w: Json, space: string, end: string, rest: string)
    requires White(space) && White(end) && ReadsTo(text, w)
    ensures ReadItems(space + (text + (end + ("]" + rest)))) == Some(Parsed([w], rest))
  {
    hide ReadValue, White, Skip;
    TailFollows(end, "]" + rest);
    ReadAfterWhite(space, text + (end + ("]" + rest)));
    SkipWhite(end, "]" + rest);
    SkipSolid("]" + rest);
    assert ("]" + rest)[1..] == rest;
  }

  lemma ItemAndMore(text: string, w: Json, ws: seq<Json>, space: string, later: string, rest: string)
    requires White(space) && ReadsTo(text, w) && ReadItems(later) == Some(Parsed(ws, rest))
    ensures ReadItems(space + (text + ("," + later))) == Some(Parsed([w] + ws, rest))
  {
    hide ReadValue, White, Skip;
    ReadAfterWhite(space, text + ("," + later));
    SkipSolid("," + later);
    assert Follows("," + later);
    assert ("," + later)[1..] == later;
  }

  lemma JoinParts(texts: seq<string>, space: string, tail: string)
    requires |texts| > 1
    ensures Join(texts, "," + space) + tail == texts[0] + ("," + (space + (Join(texts[1..], "," + space) + tail)))
  {
    hide Join;
    var more := Join(texts[1..], "," + space);
    JoinOfMore(texts, "," + space);
    assert texts[0] + ("," + space) + more + tail == texts[0] + ("," + (space + (more + tail)));
  }

  lemma JoinOfMore(texts: seq<string>, separator: string)
    requires |texts| > 1
    ensures Join(texts, separator) == texts[0] + separator + Join(texts[1..], separator)
  {
  }

  lemma TailFollows(end: string, rest: string)
    requires White(end) && Follows(rest)
    ensures Follows(end + rest)
  {
    if end != "" { assert (end + rest)[0] == end[0]; } else { assert end + rest == rest; }
  }

  lemma SkipSolid(s: string)
    requires s != "" && !IsWhite(s[0])
    ensures Skip(s) == s
  {
  }

  lemma ListReads(style: Style, level: nat, texts: seq<string>, items: seq<Json>)
    requires |texts| == |items| && forall i :: 0 <= i < |texts| ==> ReadsAs(texts[i], items[i])
    ensures ReadsAs(Bracket(style, level, "[", texts, "]"), Arr(items))
  {
    var ws := ChooseReadings(texts, items);
    hide ReadsTo, Bracket;
    BracketReads(style, level, texts, ws);
    assert Same(Arr(items), Arr(ws));
  }

  lemma BracketReads(style: Style, level: nat, texts: seq<string>, ws: seq<Json>)
    requires |texts| == |ws| && forall i :: 0 <= i < |texts| ==> ReadsTo(texts[i], ws[i])
    ensures ReadsTo(Bracket(style, level, "[", texts, "]"), Arr(ws))
  {
    var whole := Bracket(style, level, "[", texts, "]");
    forall rest: string | Follows(rest) ensures ReadValue(whole + rest) == Some(Parsed(Arr(ws), rest)) {
      if texts == [] {
        EmptyReads(rest);
      } else {
        hide ReadsTo, White, Break;
        var space, end := Break(style, level + 1), Break(style, level);
        var inside := space + (Join(texts, "," + space) + (end + ("]" + rest)));
        BreakWhite(style, level);
        BreakWhite(style, level + 1);
        ItemsRead(texts, ws, space, end, rest);
        Nest("[", space, Join(texts, "," + space), end, "]", rest);
        OpenList(inside, ws, rest);
      }
    }
  }

  lemma Nest(open: string, space: string, body: string, end: string, close: string, rest: string)
    ensures open + space + body + end + close + rest == open + (space + (body + (end + (close + rest))))
  {
  }

  lemma OpenList(inside: string, ws: seq<Json>, rest: string)
    requires ReadItems(inside) == Some(Parsed(ws, rest))
    ensures ReadValue("[" + inside) == Some(Parsed(Arr(ws), rest))
  {
    var s := "[" + inside;
    assert s[1..] == inside && s[0] == '[';
    SkipSolid(s);
    ItemsStart(inside);
    hide ReadItems, ReadMembers, ReadScalar, Skip;
  }

  lemma ItemsStart(inside: string)
    requires ReadItems(inside).Some?
    ensures ReadValue(inside).Some? && Skip(inside) != "" && Skip(inside)[0] != ']'
  {
    hide ReadValue, Skip;
    StartsAsValue(inside);
  }

  lemma EmptyReads(rest: string)
    ensures ReadValue("[]" + rest) == Some(Parsed(Arr([]), rest))
    ensures ReadValue("{}" + rest) == Some(Parsed(Obj([]), rest))
  {
    hide ReadItems, ReadMembers, ReadScalar;
    assert ("[]" + rest)[1..] == "]" + rest && ("{}" + rest)[1..] == "}" + rest;
    assert ("]" + rest)[1..] == rest && ("}" + rest)[1..] == rest;
  }

  // --- objects ---

  /** Whatever may stand behind it, the text reads as this member. */
  ghost predicate ReadsToMember(text: string, f: Field) {
    forall rest: string :: Follows(rest) ==> ReadMember(text + rest) == Some(Parsed(f, rest))
  }

  function ColonSpace(style: Style): string {
    if style.Compact? then "" else " "
  }

  lemma MemberText(key: string, style: Style, text: string, rest: string)
    ensures Quote(key) + Colon(style) + text + rest == Quote(key) + (":" + (ColonSpace(style) + (text + rest)))
  {
    hide Quote;
    assert Colon(style) == ":" + ColonSpace(style);
  }

  lemma MemberReads(style: Style, key: string, text: string, w: Json)
    requires ReadsTo(text, w)
    ensures ReadsToMember(Quote(key) + Colon(style) + text, Field(key, w))
  {
    hide ReadValue, ReadChars, Escape, Quote, Skip, White;
    forall rest: string | Follows(rest)
      ensures ReadMember(Quote(key) + Colon(style) + text + rest) == Some(Parsed(Field(key, w), rest))
    {
      var behind := ColonSpace(style) + (text + rest);
      MemberText(key, style, text, rest);
      QuoteParts(key, ":" + behind);
      SkipSolid(Quote(key) + (":" + behind));
      ReadEscaped(key, ":" + behind);
      SkipSolid(":" + behind);
      assert (":" + behind)[1..] == behind;
      ColonSpaceWhite(style);
      ReadAfterWhite(ColonSpace(style), text + rest);
    }
  }

  lemma ColonSpaceWhite(style: Style)
    ensures White(ColonSpace(style))
  {
  }

  /** The members of an object behind white space, up to the brace. */
  lemma {:induction false} MembersRead(texts: seq<string>, fs: seq<Field>, space: string, end: string, rest: string)
    requires |texts| == |fs| > 0 && White(space) && White(end)
    requires forall i :: 0 <= i < |texts| ==> ReadsToMember(texts[i], fs[i])
    ensures ReadMembers(space + (Join(texts, "," + space) + (end + ("}" + rest)))) == Some(Parsed(fs, rest))
  {
    hide ReadMembers, White, ReadsToMember;
    if |texts| == 1 {
      LastMember(texts[0], fs[0], space, end, rest);
      assert fs == [fs[0]];
    } else {
      JoinParts(texts, space, end + ("}" + rest));
      MembersRead(texts[1..], fs[1..], space, end, rest);
      MemberAndMore(texts[0], fs[0], fs[1..], space, space + (Join(texts[1..], "," + space) + (end + ("}" + rest))), rest);
      assert [fs[0]] + fs[1..] == fs;
    }
  }

  lemma LastMember(text: string, f: Field, space: string, end: string, rest: string)
    requires White(space) && White(end) && ReadsToMember(text, f)
    ensures ReadMembers(space + (text + (end + ("}" + rest)))) == Some(Parsed([f], rest))
  {
    hide ReadMember, White, Skip;
    TailFollows(end, "}" + rest);
    ReadAfterWhite(space, text + (end + ("}" + rest)));
    SkipWhite(end, "}" + rest);
    SkipSolid("}" + rest);
    assert ("}" + rest)[1..] == rest;
  }

  lemma MemberAndMore(text: string, f: Field, fs: seq<Field>, space: string, later: string, rest: string)
    requires White(space) && ReadsToMember(text, f) && ReadMembers(later) == Some(Parsed(fs, rest))
    ensures ReadMembers(space + (text + ("," + later))) == Some(Parsed([f] + fs, rest))
  {
    hide ReadMember, White, Skip;
    ReadAfterWhite(space, text + ("," + later));
    SkipSolid("," + later);
    assert Follows("," + later);
    assert ("," + later)[1..] == later;
  }

  lemma BraceReads(style: Style, level: nat, texts: seq<string>, fs: seq<Field>)
    requires |texts| == |fs| && forall i :: 0 <= i < |texts| ==> ReadsToMember(texts[i], fs[i])
    ensures ReadsTo(Bracket(style, level, "{", texts, "}"), Obj(fs))
  {
    var whole := Bracket(style, level, "{", texts, "}");
    forall rest: string | Follows(rest) ensures ReadValue(whole + rest) == Some(Parsed(Obj(fs), rest)) {
      if texts == [] {
        EmptyReads(rest);
      } else {
        hide ReadsToMember, White, Break;
        var space, end := Break(style, level + 1), Break(style, level);
        var inside := space + (Join(texts, "," + space) + (end + ("}" + rest)));
        BreakWhite(style, level);
        BreakWhite(style, level + 1);
        MembersRead(texts, fs, space, end, rest);
        Nest("{", space, Join(texts, "," + space), end, "}", rest);
        OpenObject(inside, fs, rest);
      }
    }
  }

  lemma OpenObject(inside: string, fs: seq<Field>, rest: string)
    requires ReadMembers(inside) == Some(Parsed(fs, rest))
    ensures ReadValue("{" + inside) == Some(Parsed(Obj(fs), rest))
  {
    var s := "{" + inside;
    assert s[1..] == inside && s[0] == '{';
    SkipSolid(s);
    MembersStart(inside);
    hide ReadItems, ReadMembers, ReadScalar, Skip;
  }

  lemma MembersStart(inside: string)
    requires ReadMembers(inside).Some?
    ensures Skip(inside) != "" && Skip(inside)[0] != '}'
  {
    hide ReadValue, Skip, ReadChars;
  }

  // --- values ---

  /** The member was printed for the i-th field. */
  predicate PrintedFor(style: Style, fields: seq<Field>, level: nat, m: Member, i: nat) {
    i < |fields| && m == Member(fields[i].key, Dumps(style, fields[i].value, level))
  }

  ghost predicate Printed(style: Style, fields: seq<Field>, level: nat, m: Member) {
    exists i: nat :: PrintedFor(style, fields, level, m, i)
  }

  /** A field that the member reads as: its value is the same as that of the field printed. */
  lemma ChooseField(style: Style, fields: seq<Field>, level: nat, m: Member) returns (f: Field, i: nat)
    requires forall i :: 0 <= i < |fields| ==> ReadsAs(Dumps(style, fields[i].value, level), fields[i].value)
    requires Printed(style, fields, level, m)
    ensures f.key == m.key && ReadsTo(m.text, f.value)
    ensures i < |fields| && fields[i].key == f.key && Same(fields[i].value, f.value)
  {
    hide Same, ReadsTo, Dumps;
    i :| PrintedFor(style, fields, level, m, i);
    var w :| Same(fields[i].value, w) && ReadsTo(m.text, w);
    f := Field(m.key, w);
  }

  /** The fields that the sorted members read as, with the fields they were printed for. */
  lemma {:induction false} ChooseFields(style: Style, fields: seq<Field>, level: nat, ms: seq<Member>)
    returns (fs: seq<Field>, sources: seq<nat>)
    requires forall i :: 0 <= i < |fields| ==> ReadsAs(Dumps(style, fields[i].value, level), fields[i].value)
    requires forall k :: 0 <= k < |ms| ==> Printed(style, fields, level, ms[k])
    ensures |fs| == |sources| == |ms|
    ensures forall k :: 0 <= k < |ms| ==> fs[k].key == ms[k].key && ReadsTo(ms[k].text, fs[k].value)
    ensures forall k :: 0 <= k < |ms| ==>
      sources[k] < |fields| && fields[sources[k]].key == fs[k].key && Same(fields[sources[k]].value, fs[k].value)
  {
    hide Same, ReadsTo, ReadsAs, Dumps, Printed;
    if ms == [] {
      fs, sources := [], [];
    } else {
      var n := |ms| - 1;
      var before, from := ChooseFields(style, fields, level, ms[..n]);
      var f, i := ChooseField(style, fields, level, ms[n]);
      fs, sources := before + [f], from + [i];
    }
  }

  lemma SameFields(fields: seq<Field>, fs: seq<Field>, sources: seq<nat>)
    requires forall i, j :: 0 <= i < j < |fields| ==> fields[i].key != fields[j].key
    requires |fs| == |fields| == |sources| && forall i :: 0 <= i < |fields| ==> HasKey(fs, fields[i].key)
    requires forall k :: 0 <= k < |fs| ==>
      sources[k] < |fields| && fields[sources[k]].key == fs[k].key && Same(fields[sources[k]].value, fs[k].value)
    ensures Same(Obj(fields), Obj(fs))
  {
    forall i | 0 <= i < |fields| ensures HasMember(fs, fields[i]) {
      var k :| 0 <= k < |fs| && fs[k].key == fields[i].key;
      assert sources[k] == i;
    }
    hide HasMember;
  }

  predicate HasKey(fields: seq<Field>, key: string) {
    exists k :: 0 <= k < |fields| && fields[k].key == key
  }

  predicate HasMemberKey(ms: seq<Member>, key: string) {
    exists k :: 0 <= k < |ms| && ms[k].key == key
  }

  /** Sorting keeps every member, and each was printed for a field. */
  lemma SortedMembers(style: Style, fields: seq<Field>, level: nat)
    requires forall i, j :: 0 <= i < j < |fields| ==> fields[i].key != fields[j].key
    ensures var ms := SortByKey(DumpMembers(style, fields, level));
      && |ms| == |fields|
      && (forall k :: 0 <= k < |ms| ==> Printed(style, fields, level, ms[k]))
      && (forall i :: 0 <= i < |fields| ==> HasMemberKey(ms, fields[i].key))
  {
    hide Dumps, DumpMembers, SortByKey;
    var members := DumpMembers(style, fields, level);
    forall i | 0 <= i < |fields| ensures PrintedFor(style, fields, level, members[i], i) {
      DumpMembersAt(style, fields, level, i);
    }
    var ms := SortByKey(members);
    SortSorts(members);
    SameLength(members, ms);
    forall k | 0 <= k < |ms| ensures Printed(style, fields, level, ms[k]) {
      var i := FindIn(ms, members, k);
      assert PrintedFor(style, fields, level, ms[k], i);
    }
    forall i | 0 <= i < |fields| ensures HasMemberKey(ms, fields[i].key) {
      var k := FindIn(members, ms, i);
      assert PrintedFor(style, fields, level, members[i], i) && ms[k].key == fields[i].key;
    }
  }

  lemma ObjectReads(style: Style, level: nat, fields: seq<Field>)
    requires forall i, j :: 0 <= i < j < |fields| ==> fields[i].key != fields[j].key
    requires forall i :: 0 <= i < |fields| ==> ReadsAs(Dumps(style, fields[i].value, level + 1), fields[i].value)
    ensures ReadsAs(Dumps(style, Obj(fields), level), Obj(fields))
  {
    var ms := SortByKey(DumpMembers(style, fields, level + 1));
    SortedMembers(style, fields, level + 1);
    hide Dumps, ReadsTo, Same, DumpMembers, SortByKey, Printed, ReadsAs;
    var fs, sources := ChooseFields(style, fields, level + 1, ms);
    forall i | 0 <= i < |fields| ensures HasKey(fs, fields[i].key) {
      var k :| 0 <= k < |ms| && ms[k].key == fields[i].key;
      assert fs[k].key == fields[i].key;
    }
    SameFields(fields, fs, sources);
    MembersInBraces(style, level, ms, fs);
    DumpsObject(style, fields, level);
    ReadsAsWitness(Dumps(style, Obj(fields), level), Obj(fields), Obj(fs));
  }

  lemma DumpsObject(style: Style, fields: seq<Field>, level: nat)
    ensures Dumps(style, Obj(fields), level)
            == Bracket(style, level, "{", MemberTexts(style, SortByKey(DumpMembers(style, fields, level + 1))), "}")
  {
  }

  lemma ReadsAsWitness(text: string, v: Json, w: Json)
    requires Same(v, w) && ReadsTo(text, w)
    ensures ReadsAs(text, v)
  {
  }

  lemma MembersInBraces(style: Style, level: nat, ms: seq<Member>, fs: seq<Field>)
    requires |fs| == |ms| && forall k :: 0 <= k < |ms| ==> fs[k].key == ms[k].key && ReadsTo(ms[k].text, fs[k].value)
    ensures ReadsTo(Bracket(style, level, "{", MemberTexts(style, ms), "}"), Obj(fs))
  {
    hide ReadsTo, ReadsToMember, Quote, Colon, Bracket;
    var texts := MemberTexts(style, ms);
    forall k | 0 <= k < |ms| ensures ReadsToMember(texts[k], fs[k]) {
      MemberReads(style, ms[k].key, ms[k].text, fs[k].value);
    }
    BraceReads(style, level, texts, fs);
  }

  lemma {:induction false} DumpsRead(style: Style, v: Json, level: nat)
    requires Printable(v)
    ensures ReadsAs(Dumps(style, v, level), v)
    decreases v
  {
    hide ReadsTo, Quote, IntText, Bracket;
    match v
    case Null => LiteralReads(true);
    case Bool(b) => LiteralReads(b);
    case Int(n) =>
      IntReads(n);
      NumberReads(IntText(n), v);
    case Float(repr) =>
      FloatReads(repr);
      NumberReads(repr, v);
    case Str(s) => StringReads(s);
    case Arr(items) =>
      var texts := DumpItems(style, items, level + 1);
      forall i | 0 <= i < |items| ensures ReadsAs(texts[i], items[i]) {
        DumpItemsAt(style, items, level + 1, i);
        DumpsRead(style, items[i], level + 1);
      }
      ListReads(style, level, texts, items);
    case Obj(fields) =>
      forall i | 0 <= i < |fields| ensures ReadsAs(Dumps(style, fields[i].value, level + 1), fields[i].value) {
        DumpsRead(style, fields[i].value, level + 1);
      }
      ObjectReads(style, level, fields);
  }

  // --- main results ---

  /** What is printed for a value reads back as that value, up to the order of members. */
  lemma PrintReadsBack(style: Style, v: Json, level: nat)
    requires Printable(v)
    ensures Read(Dumps(style, v, level)).Some? && Same(v, Read(Dumps(style, v, level)).value)
  {
    DumpsRead(style, v, level);
    hide Dumps, Same, ReadValue;
    var text := Dumps(style, v, level);
    var w :| Same(v, w) && ReadsTo(text, w);
    assert text + "" == text;
    assert Follows("");
  }
}
