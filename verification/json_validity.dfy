/** Which values print as JSON at all: Python also prints floats that are no numbers, and a text
    with one of them anywhere in it is not read. */
module JsonValidity {
  import opened Wrappers
  import opened Text
  import opened JsonText
  import opened JsonReader
  import opened JsonRoundTrip
  import opened KeyOrder

  /** What Python prints for a float that is no number. */
  predicate NotANumber(repr: string) {
    repr == "NaN" || repr == "Infinity" || repr == "-Infinity"
  }

  /** The values that a Python program can print: keys are distinct, and floats print as numerals
      or as no numbers. */
  predicate PythonValue(v: Json) {
    match v
    case Float(repr) => IsFloatText(repr) || NotANumber(repr)
    case Arr(items) => forall i :: 0 <= i < |items| ==> PythonValue(items[i])
    case Obj(fields) =>
      && (forall i, j :: 0 <= i < j < |fields| ==> fields[i].key != fields[j].key)
      && (forall i :: 0 <= i < |fields| ==> PythonValue(fields[i].value))
    case _ => true
  }

  // --- texts that no reader accepts ---

  /** Whatever may stand behind it, the text does not read. */
  ghost predicate Fails(text: string) {
    forall rest: string :: Follows(rest) ==> ReadValue(text + rest) == None
  }

  ghost predicate FailsAsMember(text: string) {
    forall rest: string :: Follows(rest) ==> ReadMember(text + rest) == None
  }

  ghost predicate Reads(text: string) {
    exists w :: ReadsTo(text, w)
  }

  ghost predicate ReadsAsMember(text: string) {
    exists f :: ReadsToMember(text, f)
  }

  lemma NoSuchNumber(s: string)
    requires s != "" && (if s[0] == '-' then |s| >= 2 && s[1] == 'I' else s[0] == 'N' || s[0] == 'I')
    ensures ReadValue(s) == None
  {
    hide Skip, ReadItems, ReadMembers, ReadScalar;
    SkipSolid(s);
    ScalarFails(s);
  }

  lemma ScalarFails(s: string)
    requires s != "" && (if s[0] == '-' then |s| >= 2 && s[1] == 'I' else s[0] == 'N' || s[0] == 'I')
    ensures ReadScalar(s) == None
  {
    hide ReadChars, NumberRun, NumberOf;
    NotALiteral(s);
    RunOfSuch(s);
    MinusAlone();
  }

  lemma RunOfSuch(s: string)
    requires s != "" && (if s[0] == '-' then |s| >= 2 && s[1] == 'I' else s[0] == 'N' || s[0] == 'I')
    ensures NumberRun(s) == if s[0] == '-' then "-" else ""
  {
    if s[0] == '-' { assert NumberRun(s[1..]) == ""; }
  }

  lemma NotALiteral(s: string)
    requires s != "" && (s[0] == '-' || s[0] == 'N' || s[0] == 'I')
    ensures !("null" <= s) && !("true" <= s) && !("false" <= s)
  {
    assert "null"[0] == 'n' && "true"[0] == 't' && "false"[0] == 'f';
  }

  lemma MinusAlone()
    ensures NumberOf("-") == None
  {
    assert Unsigned("-") == "" && Digits("") == "";
  }

  lemma NotANumberFails(repr: string)
    requires NotANumber(repr)
    ensures Fails(repr)
  {
    assert "NaN"[0] == 'N' && "Infinity"[0] == 'I' && "-Infinity"[0] == '-' && "-Infinity"[1] == 'I';
    hide ReadValue;
    forall rest: string | Follows(rest) ensures ReadValue(repr + rest) == None {
      assert (repr + rest)[0] == repr[0] && (|repr| >= 2 ==> (repr + rest)[1] == repr[1]);
      NoSuchNumber(repr + rest);
    }
  }

  // --- how texts begin ---

  /** No text begins with white space or a closing bracket. */
  predicate Opens(text: string) {
    text != "" && !IsWhite(text[0]) && text[0] != ']' && text[0] != '}'
  }

  lemma DumpsOpens(style: Style, v: Json, level: nat)
    requires v.Float? ==> v.repr != "" && Opens(v.repr)
    ensures Opens(Dumps(style, v, level))
  {
    match v
    case Int(n) => IntReads(n);
    case Arr(items) => BracketOpens(style, level, "[", DumpItems(style, items, level + 1), "]");
    case Obj(fields) =>
      DumpsObject(style, fields, level);
      BracketOpens(style, level, "{", MemberTexts(style, SortByKey(DumpMembers(style, fields, level + 1))), "}");
    case _ =>
  }

  lemma BracketOpens(style: Style, level: nat, open: string, texts: seq<string>, close: string)
    requires open != ""
    ensures Bracket(style, level, open, texts, close) != "" && Bracket(style, level, open, texts, close)[0] == open[0]
  {
  }

  lemma FloatOpens(repr: string)
    requires IsFloatText(repr) || NotANumber(repr)
    ensures repr != "" && Opens(repr)
  {
    if IsFloatText(repr) { FloatReads(repr); }
  }

  // --- lists ---

  /** What stands behind the first text of a list or an object. */
  lemma FirstAndMore(texts: seq<string>, space: string, end: string, close: string, rest: string) returns (more: string)
    requires texts != [] && White(end) && close != "" && Follows(close)
    ensures Follows(more) && Join(texts, "," + space) + (end + (close + rest)) == texts[0] + more
  {
    if |texts| == 1 {
      more := end + (close + rest);
      TailFollows(end, close + rest);
    } else {
      JoinParts(texts, space, end + (close + rest));
      more := "," + (space + (Join(texts[1..], "," + space) + (end + (close + rest))));
    }
  }

  lemma FirstFails(text: string, space: string, more: string)
    requires White(space) && Follows(more)
    ensures Fails(text) ==> ReadItems(space + (text + more)) == None
    ensures FailsAsMember(text) ==> ReadMembers(space + (text + more)) == None
  {
    hide White, ReadMember, Skip;
    if Fails(text) { ReadAfterWhite(space, text + more); }
    if FailsAsMember(text) { MemberAfterWhite(space, text + more); }
  }

  lemma MemberAfterWhite(space: string, s: string)
    requires White(space)
    ensures ReadMember(space + s) == ReadMember(s)
  {
    SkipWhite(space, s);
  }

  lemma MoreFails(text: string, space: string, later: string)
    requires White(space)
    ensures Reads(text) && ReadItems(later) == None ==> ReadItems(space + (text + ("," + later))) == None
    ensures ReadsAsMember(text) && ReadMembers(later) == None ==> ReadMembers(space + (text + ("," + later))) == None
  {
    SkipSolid("," + later);
    assert ("," + later)[1..] == later && Follows("," + later);
    hide White, Skip, ReadValue, ReadMember;
    if Reads(text) { ReadAfterWhite(space, text + ("," + later)); }
    if ReadsAsMember(text) { MemberAfterWhite(space, text + ("," + later)); }
  }

  /** The first text that does not read makes the list unreadable. */
  lemma {:induction false} ItemsFail(texts: seq<string>, k: nat, space: string, end: string, rest: string)
    requires k < |texts| && White(space) && White(end)
    requires Fails(texts[k]) && forall i :: 0 <= i < k ==> Reads(texts[i])
    ensures ReadItems(space + (Join(texts, "," + space) + (end + ("]" + rest)))) == None
  {
    hide ReadItems, White, Fails, Reads;
    if k == 0 {
      var more := FirstAndMore(texts, space, end, "]", rest);
      FirstFails(texts[0], space, more);
    } else {
      JoinParts(texts, space, end + ("]" + rest));
      ItemsFail(texts[1..], k - 1, space, end, rest);
      MoreFails(texts[0], space, space + (Join(texts[1..], "," + space) + (end + ("]" + rest))));
    }
  }

  lemma {:induction false} MembersFail(texts: seq<string>, k: nat, space: string, end: string, rest: string)
    requires k < |texts| && White(space) && White(end)
    requires FailsAsMember(texts[k]) && forall i :: 0 <= i < k ==> ReadsAsMember(texts[i])
    ensures ReadMembers(space + (Join(texts, "," + space) + (end + ("}" + rest)))) == None
  {
    hide ReadMembers, White, FailsAsMember, ReadsAsMember;
    if k == 0 {
      var more := FirstAndMore(texts, space, end, "}", rest);
      FirstFails(texts[0], space, more);
    } else {
      JoinParts(texts, space, end + ("}" + rest));
      MembersFail(texts[1..], k - 1, space, end, rest);
      MoreFails(texts[0], space, space + (Join(texts[1..], "," + space) + (end + ("}" + rest))));
    }
  }

  /** A bracket whose inside opens and does not read does not read. */
  lemma OpenFails(inside: string)
    requires Skip(inside) != "" && Opens(Skip(inside))
    ensures ReadItems(inside) == None ==> ReadValue("[" + inside) == None
    ensures ReadMembers(inside) == None ==> ReadValue("{" + inside) == None
  {
    SkipSolid("[" + inside);
    SkipSolid("{" + inside);
    assert ("[" + inside)[1..] == inside && ("{" + inside)[1..] == inside;
    hide ReadItems, ReadMembers, ReadScalar, Skip;
  }

  lemma InsideOpens(texts: seq<string>, space: string, tail: string)
    requires White(space) && texts != [] && Opens(texts[0])
    ensures var s := space + (Join(texts, "," + space) + tail); Skip(s) != "" && Opens(Skip(s))
  {
    var body := Join(texts, "," + space) + tail;
    assert body[0] == texts[0][0];
    SkipWhite(space, body);
    SkipSolid(body);
  }

  lemma BracketFails(style: Style, level: nat, texts: seq<string>, k: nat)
    requires k < |texts| && Opens(texts[0])
    ensures Fails(texts[k]) && (forall i :: 0 <= i < k ==> Reads(texts[i])) ==> Fails(Bracket(style, level, "[", texts, "]"))
    ensures FailsAsMember(texts[k]) && (forall i :: 0 <= i < k ==> ReadsAsMember(texts[i])) ==>
      Fails(Bracket(style, level, "{", texts, "}"))
  {
    var space, end := Break(style, level + 1), Break(style, level);
    BreakWhite(style, level);
    BreakWhite(style, level + 1);
    var body := Join(texts, "," + space);
    assert Bracket(style, level, "[", texts, "]") == "[" + space + body + end + "]";
    assert Bracket(style, level, "{", texts, "}") == "{" + space + body + end + "}";
    hide ReadValue, Break, White, Reads, ReadsAsMember, Bracket, Join, Opens;
    forall rest: string | Follows(rest)
      ensures Fails(texts[k]) && (forall i :: 0 <= i < k ==> Reads(texts[i])) ==>
        ReadValue("[" + space + body + end + "]" + rest) == None
      ensures FailsAsMember(texts[k]) && (forall i :: 0 <= i < k ==> ReadsAsMember(texts[i])) ==>
        ReadValue("{" + space + body + end + "}" + rest) == None
    {
      Nest("[", space, body, end, "]", rest);
      Nest("{", space, body, end, "}", rest);
      InsideOpens(texts, space, end + ("]" + rest));
      InsideOpens(texts, space, end + ("}" + rest));
      OpenFails(space + (body + (end + ("]" + rest))));
      OpenFails(space + (body + (end + ("}" + rest))));
      if Fails(texts[k]) && (forall i :: 0 <= i < k ==> Reads(texts[i])) { ItemsFail(texts, k, space, end, rest); }
      if FailsAsMember(texts[k]) && (forall i :: 0 <= i < k ==> ReadsAsMember(texts[i])) {
        MembersFail(texts, k, space, end, rest);
      }
    }
  }

  // --- objects ---

  lemma MemberFails(style: Style, key: string, text: string)
    requires Fails(text)
    ensures FailsAsMember(Quote(key) + Colon(style) + text)
  {
    hide ReadValue, ReadChars, Escape, Quote, Skip, White;
    forall rest: string | Follows(rest) ensures ReadMember(Quote(key) + Colon(style) + text + rest) == None {
      var behind := ColonSpace(style) + (text + rest);
      MemberText(key, style, text, rest);
      QuoteParts(key, ":" + behind);
      SkipSolid(Quote(key) + (":" + behind));
      ReadEscaped(key, ":" + behind);
      SkipSolid(":" + behind);
      assert (":" + behind)[1..] == behind;
      ColonSpaceWhite(style);
      ReadAfterWhite(ColonSpace(style), text + rest);
    }
  }

  lemma MemberReadsOrFails(style: Style, key: string, text: string)
    ensures Reads(text) ==> ReadsAsMember(Quote(key) + Colon(style) + text)
    ensures Fails(text) ==> FailsAsMember(Quote(key) + Colon(style) + text)
  {
    hide ReadsTo, Fails, ReadsToMember, FailsAsMember, Quote, Colon;
    if Reads(text) {
      var w :| ReadsTo(text, w);
      MemberReads(style, key, text, w);
    }
    if Fails(text) { MemberFails(style, key, text); }
  }

  /** The first of these texts that does not read. */
  lemma {:induction false} FirstOf(texts: seq<string>, bad: nat) returns (k: nat)
    requires bad < |texts| && Fails(texts[bad]) && forall i :: 0 <= i < |texts| ==> Reads(texts[i]) || Fails(texts[i])
    ensures k < |texts| && Fails(texts[k]) && forall i :: 0 <= i < k ==> Reads(texts[i])
    decreases bad
  {
    hide Reads, Fails;
    if i :| 0 <= i < bad && !Reads(texts[i]) {
      k := FirstOf(texts, i);
    } else {
      k := bad;
    }
  }

  lemma ListFails(style: Style, level: nat, texts: seq<string>, bad: nat)
    requires bad < |texts| && Fails(texts[bad]) && forall i :: 0 <= i < |texts| ==> Reads(texts[i]) || Fails(texts[i])
    requires Opens(texts[0])
    ensures Fails(Bracket(style, level, "[", texts, "]"))
  {
    hide Reads, Fails, Bracket, Opens;
    var k := FirstOf(texts, bad);
    BracketFails(style, level, texts, k);
  }

  lemma ObjectFails(style: Style, level: nat, ms: seq<Member>, bad: nat)
    requires bad < |ms| && Fails(ms[bad].text) && forall i :: 0 <= i < |ms| ==> Reads(ms[i].text) || Fails(ms[i].text)
    ensures Fails(Bracket(style, level, "{", MemberTexts(style, ms), "}"))
  {
    var texts := seq(|ms|, i requires 0 <= i < |ms| => ms[i].text);
    var members := MemberTexts(style, ms);
    assert Opens(members[0]);
    hide Reads, Fails, Bracket, Opens, ReadsAsMember, FailsAsMember;
    var k := FirstOf(texts, bad);
    forall i | 0 <= i < |ms|
      ensures Reads(texts[i]) ==> ReadsAsMember(members[i])
      ensures Fails(texts[i]) ==> FailsAsMember(members[i])
    {
      MemberReadsOrFails(style, ms[i].key, ms[i].text);
    }
    BracketFails(style, level, members, k);
  }

  // --- main result ---

  lemma SameReads(text: string, v: Json)
    requires ReadsAs(text, v)
    ensures Reads(text)
  {
  }

  lemma {:induction false} ReadsOrFails(style: Style, v: Json, level: nat)
    requires PythonValue(v)
    ensures if Printable(v) then Reads(Dumps(style, v, level)) else Fails(Dumps(style, v, level))
    decreases v
  {
    hide Reads, Fails, Bracket;
    if Printable(v) {
      DumpsRead(style, v, level);
      SameReads(Dumps(style, v, level), v);
    } else if v.Float? {
      NotANumberFails(v.repr);
    } else if v.Arr? {
      var texts := DumpItems(style, v.items, level + 1);
      forall i | 0 <= i < |v.items| ensures if Printable(v.items[i]) then Reads(texts[i]) else Fails(texts[i]) {
        DumpItemsAt(style, v.items, level + 1, i);
        ReadsOrFails(style, v.items[i], level + 1);
      }
      var bad :| 0 <= bad < |v.items| && !Printable(v.items[bad]);
      DumpItemsAt(style, v.items, level + 1, 0);
      PythonOpens(style, v.items[0], level + 1);
      ListFails(style, level, texts, bad);
    } else {
      var fields := v.fields;
      forall i | 0 <= i < |fields|
        ensures if Printable(fields[i].value) then Reads(Dumps(style, fields[i].value, level + 1))
                else Fails(Dumps(style, fields[i].value, level + 1))
      {
        ReadsOrFails(style, fields[i].value, level + 1);
      }
      var bad :| 0 <= bad < |fields| && !Printable(fields[bad].value);
      FieldFails(style, level, fields, bad);
    }
  }

  lemma PythonOpens(style: Style, v: Json, level: nat)
    requires PythonValue(v)
    ensures Opens(Dumps(style, v, level))
  {
    if v.Float? { FloatOpens(v.repr); }
    DumpsOpens(style, v, level);
  }

  lemma FieldFails(style: Style, level: nat, fields: seq<Field>, bad: nat)
    requires forall i, j :: 0 <= i < j < |fields| ==> fields[i].key != fields[j].key
    requires bad < |fields| && Fails(Dumps(style, fields[bad].value, level + 1))
    requires forall i :: 0 <= i < |fields| ==>
      Reads(Dumps(style, fields[i].value, level + 1)) || Fails(Dumps(style, fields[i].value, level + 1))
    ensures Fails(Dumps(style, Obj(fields), level))
  {
    hide Reads, Fails, Bracket, Dumps, DumpMembers, SortByKey;
    DumpsObject(style, fields, level);
    var ms := SortByKey(DumpMembers(style, fields, level + 1));
    var k := MemberOf(style, fields, level + 1, bad);
    forall j | 0 <= j < |ms| ensures Reads(ms[j].text) || Fails(ms[j].text) {
      var i := FieldOf(style, fields, level + 1, j);
    }
    ObjectFails(style, level, ms, k);
  }

  /** The field that a sorted member was printed for. */
  lemma FieldOf(style: Style, fields: seq<Field>, level: nat, k: nat) returns (i: nat)
    requires forall i, j :: 0 <= i < j < |fields| ==> fields[i].key != fields[j].key
    requires k < |SortByKey(DumpMembers(style, fields, level))|
    ensures i < |fields| && SortByKey(DumpMembers(style, fields, level))[k].text == Dumps(style, fields[i].value, level)
  {
    hide Dumps, DumpMembers, SortByKey;
    SortedMembers(style, fields, level);
    i :| PrintedFor(style, fields, level, SortByKey(DumpMembers(style, fields, level))[k], i);
  }

  /** Where the member of a field stands among the sorted ones. */
  lemma MemberOf(style: Style, fields: seq<Field>, level: nat, i: nat) returns (k: nat)
    requires i < |fields|
    requires forall i, j :: 0 <= i < j < |fields| ==> fields[i].key != fields[j].key
    ensures var ms := SortByKey(DumpMembers(style, fields, level));
      k < |ms| && ms[k].text == Dumps(style, fields[i].value, level)
  {
    SortedMembers(style, fields, level);
    hide Dumps, DumpMembers, SortByKey;
    var ms := SortByKey(DumpMembers(style, fields, level));
    k :| 0 <= k < |ms| && ms[k].key == fields[i].key;
    var j: nat :| PrintedFor(style, fields, level, ms[k], j);
    assert j == i;
  }

  /** Over all values that Python can print, the print is a JSON text exactly when no float in the
      value is NaN or infinite; then it reads back as the value. */
  lemma JsonExactlyForNumbers(style: Style, v: Json, level: nat)
    requires PythonValue(v)
    ensures Read(Dumps(style, v, level)).Some? <==> Printable(v)
    ensures Printable(v) ==> Same(v, Read(Dumps(style, v, level)).value)
  {
    if Printable(v) {
      PrintReadsBack(style, v, level);
    } else {
      ReadsOrFails(style, v, level);
      hide Dumps, ReadValue;
      var text := Dumps(style, v, level);
      assert text + "" == text && Follows("");
    }
  }
}
